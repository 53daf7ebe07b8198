# Back office of a web studio: a verified model

This project models the core of a small company web site's back office. The
site is a React front end with an Express/MongoDB back end. Staff use it to:

- write quotations and invoices, with GST, discount, round-off and the amount
  in words;
- print those documents on the server;
- sign in, and let the administrator reset a forgotten password with a
  one-time password (OTP) sent by mail;
- manage user accounts and the features each user may open;
- post job openings and review applicants;
- keep a photo and video gallery.

Visitors see the published jobs and apply through a form.

Each core source file becomes one Dafny module:

| module | file | source |
|---|---|---|
| `BillMath` | `bill_math.dfy` | the invoice arithmetic of `frontend/src/bill/Bill.jsx` |
| `Words` | `words.dfy` | the two amount-in-words renderers: the editor's in `Bill.jsx` and the print controller's |
| `BillRecords` | `bill_records.dfy` | the rest of `Bill.jsx`: numbering, validation, line items, saving, search and paging, with class `BillBook` holding the editor's state |
| `PrintLayout` | `print_layout.dfy` | `backend/controllers/printJobController.js`: escaping, rows, pagination, totals and the page structure of the printed document |
| `LoginFlow` | `login_flow.dfy` | `frontend/src/login/Login.jsx`: the sign-in, OTP and reset steps, with class `LoginScreen` |
| `UserAccounts` | `user_accounts.dfy` | `backend/controllers/userController.js`: user creation and deletion, and the administrator's OTP reset, with class `UserStore` |
| `UserAccess` | `user_access.dfy` | `frontend/src/useraccess/UserAccess.jsx`: access flags, labels, search and the add-user form (class `UserForm`) |
| `JobPost` | `job_post.dfy` | `frontend/src/job/JobPost.jsx`: experience text, list fields, the job form, search, delete and paging, with class `JobBoard` |
| `Applicants` | `applicants.dfy` | `frontend/src/applicants/Applicants.jsx`: status normalisation, filtering, paging and the detail page (classes `ApplicantsPage` and `ApplicantDetail`) |
| `WebForm` | `web_form.dfy` | `frontend/src/web/Web.jsx`: the public job list, the apply form and its validation (class `ApplyModal`), and the title shortener |
| `GalleryStore` | `gallery.dfy` | `backend/controllers/galleryController.js`: galleries and their upload folder (classes `GalleryRecord` and `Store`) |

Two shared modules support them. `Text` (`text.dfy`) holds the JavaScript
string operations the sources use, such as `trim`, `split`, `toLowerCase`,
`padStart`, `String(n)` and `parseInt`. `Listing` (`listing.dfy`) holds
filtering, subsequences, ceiling division, page slices and fixed-size
chunks.

Modelling conventions:

- Money is `real`. `Math.round(x)` is `Floor(x + 0.5)`.
- Strings are `seq<char>`. A field that may be missing is an `Option`.
- A React component's state is a class. Each event handler is a method whose
  `ensures` gives the new state as a function of the old one. The properties
  of those functions are lemmas.
- The network, the clock, `Math.random`, mail and file uploads are
  parameters. Examples: `sent`, `ok` or `response` for the outcome of a
  `fetch`, `now` and `today` for `Date`, `random` for `Math.random()`.

## Model

| member | source | states |
|---|---|---|
| BillMath.Round | frontend/src/bill/Bill.jsx:93 | `Math.round`: the whole number r with x − 1/2 < r ≤ x + 1/2, so halves round up |
| BillMath.ComputeItemTax | frontend/src/bill/Bill.jsx:68-76 | a line's GST is amount × rate / 100, zero for a missing or zero rate; CGST and SGST are half each; total = amount + GST |
| BillMath.SubtotalAppend | frontend/src/bill/Bill.jsx:78-79 | the subtotal adds each line's amount, a missing amount counting 0 |
| BillMath.TotalGstAppend | frontend/src/bill/Bill.jsx:81-85 | the GST total adds each line's GST |
| BillMath.GrandTotalFormula | frontend/src/bill/Bill.jsx:87-95 | without round-off the grand total is (subtotal + GST) less d percent; with it, the nearest whole amount, within 1/2 of that |
| BillMath.DiscountIdentity | frontend/src/bill/Bill.jsx:91-92 | taking d percent off t gives t − t·d/100, the amount the summary subtracts |
| BillMath.DiscountValue | frontend/src/bill/Bill.jsx:1019-1024 | the discount line is minus d percent of (subtotal + GST); grand total without round-off = subtotal + GST + discount line |
| BillMath.RoundDiffAlwaysZero | frontend/src/bill/Bill.jsx:1025-1027 | the round-off line as written is 0 for every record, because the grand total it starts from is already rounded |
| BillMath.RoundOffLine | frontend/src/bill/Bill.jsx:1025-1027 | the intended round-off line: exact total + round-off line = the rounded grand total, and its size is at most 1/2 |
| BillMath.RoundOffLineWitness | frontend/src/bill/Bill.jsx:1025-1027 | one line of 10.40 with round-off on: the intended line is −0.40 and the line as written is 0 |
| BillMath.DesignInvoiceExample | frontend/src/bill/Bill.jsx:68-95 | a worked invoice: 1000 at 18% has GST 180 (CGST = SGST = 90) and total 1180; with 10% off the grand total is 1062 and the discount line −118 |
| Words.ClientNumberToWords | frontend/src/bill/Bill.jsx:24-66 | the editor's `numberToWords` with `num` reduced in place equals the reference `ClientWords`: "Zero Only" for a missing amount or 0, the non-zero groups otherwise |
| Words.ServerNumberToWords | backend/controllers/printJobController.js:26-63 | the print controller's `numberToWords` equals the reference `ServerWords`, which splits every group off with `%=` and pushes the non-zero ones |
| Words.InWordsBelowHundred | frontend/src/bill/Bill.jsx:36-39 | below a hundred the editor's words are the tens/ones words |
| Words.InWordsHundreds | frontend/src/bill/Bill.jsx:40-45 | from 100 to 999: the hundreds digit, "Hundred", then the words of the rest when it is not zero |
| Words.ThreeIsInWords | backend/controllers/printJobController.js:41-45 | the server's `three` and the editor's group words agree below 1000 |
| Words.ClientServerAgree | backend/controllers/printJobController.js:47-62 | for every amount from 1 to 10^10 − 1 the print and the editor spell the same words |
| Words.ClientServerDifferAtEdges | backend/controllers/printJobController.js:27 | at 0 the editor prints "Zero Only" and the print " Only"; for a missing amount, "Zero Only" and "" |
| Words.ClientServerDifferAtHundredCrore | frontend/src/bill/Bill.jsx:46-51 | at 100 crore the editor's `inWords(1000)` is empty, so it prints " Crore Only", while the print reads "Ten Hundred Crore Only" |
| Words.ClientWordsShape | frontend/src/bill/Bill.jsx:65 | for an amount from 1 to 10^10 − 1, the words end in " Only" after at least one group |
| Words.ExampleOneLakh | frontend/src/bill/Bill.jsx:24-66 | 100000 reads "One Lakh Only" |
| Words.ExampleTwoLakh | frontend/src/bill/Bill.jsx:24-66 | 205010 reads "Two Lakh Five Thousand Ten Only" |
| Words.ExampleTwelveLakh | frontend/src/bill/Bill.jsx:24-66 | 1234567 reads "Twelve Lakh Thirty Four Thousand Five Hundred Sixty Seven Only" |
| Words.ExampleElevenEighty | frontend/src/bill/Bill.jsx:24-66 | 1180 reads "One Thousand One Hundred Eighty Only" |
| BillRecords.FirstAllowedPage | frontend/src/bill/Bill.jsx:389-404 | no user: no page; an administrator opens applicants; otherwise the first granted feature in the order applicants, blogs, gallery, job, invoice, quotation, or none |
| BillRecords.Prefix | frontend/src/bill/Bill.jsx:500 | quotations are numbered "QU…", invoices "IN…" |
| BillRecords.ParsedNumbersMembers | frontend/src/bill/Bill.jsx:502-504 | the parsed counters are exactly the numbers of the records whose number parses after the prefix is removed |
| BillRecords.LastNumber | frontend/src/bill/Bill.jsx:505 | the largest counter, or 0 when there is none: it bounds every counter, and belongs to the list when the list is not empty |
| BillRecords.PaddedCounterValue | frontend/src/bill/Bill.jsx:506 | a counter padded to three digits reads back as itself |
| BillRecords.RemovePrefix | frontend/src/bill/Bill.jsx:503 | removing the prefix from prefix + rest leaves rest |
| BillRecords.CounterReadsBack | frontend/src/bill/Bill.jsx:503-506 | a number built from a counter parses back to that counter |
| BillRecords.CountersBelowNext | frontend/src/bill/Bill.jsx:499-507 | every parsed counter is below the next one |
| BillRecords.NextNumberShape | frontend/src/bill/Bill.jsx:506 | the next number is the prefix followed by last + 1 padded to three digits |
| BillRecords.NextNumberExceedsAll | frontend/src/bill/Bill.jsx:499-507 | the next counter is one more than the largest parsable counter, so it exceeds every one of them |
| BillRecords.NextNumberIsFresh | frontend/src/bill/Bill.jsx:499-507 | no record already carries the next number |
| BillRecords.FirstNumberWithoutCounters | frontend/src/bill/Bill.jsx:505-506 | when no record's number parses, the next number is prefix + "001" |
| BillRecords.NextFromNoNumbers | frontend/src/bill/Bill.jsx:505-506 | an empty counter list gives prefix + "001" |
| BillRecords.NumberAfterSmall | frontend/src/bill/Bill.jsx:506 | after a single-digit counter the number is prefix, "00", then the next digit |
| BillRecords.NoCountersNoNumbers | frontend/src/bill/Bill.jsx:502-504 | when no number parses, the counter list is empty |
| BillRecords.ParsedNumbersCons | frontend/src/bill/Bill.jsx:502-504 | a record whose number parses contributes its counter in list order |
| BillRecords.NextAfterThree | frontend/src/bill/Bill.jsx:505-506 | counters 1 and 3 give counter 4: a gap is not filled |
| BillRecords.LastOfOneThree | frontend/src/bill/Bill.jsx:505 | the largest of 1 and 3 is 3 |
| BillRecords.EmptyRecord | frontend/src/bill/Bill.jsx:509-529 | a blank form carries the next number, the company as sender, a blank customer, no items and every switch off |
| BillRecords.ValidateAllFields | frontend/src/bill/Bill.jsx:534-548 | the loop returns true exactly when number, date and all eight party fields are filled and there is at least one item, each with a name and an amount |
| BillRecords.EmptyRecordIncomplete | frontend/src/bill/Bill.jsx:509-548 | a blank form never passes `validateAllFields` |
| BillRecords.Check | frontend/src/bill/Bill.jsx:600-611 | one validation test: no message when it holds, its own message otherwise |
| BillRecords.Push | frontend/src/bill/Bill.jsx:600-611 | one `if (...) errors.push(...)` step appends the message exactly when its test fails |
| BillRecords.ValidateForm | frontend/src/bill/Bill.jsx:598-617 | the messages the six tests push, in order |
| BillRecords.FormErrorsMeaning | frontend/src/bill/Bill.jsx:598-617 | the form passes exactly when there is no message; at most six messages; each message appears exactly when its own test fails (mail ending "@gmail.com", 10-digit phone, 6-digit postal code, empty fields allowed) |
| BillRecords.MessagesMeaning | frontend/src/bill/Bill.jsx:598-617 | the six tests' messages are empty exactly when all tests hold, each present iff its test fails |
| BillRecords.OnlyDigitsMax | frontend/src/bill/Bill.jsx:97-100 | the digits of the input, cut to the limit: all digits, at most the limit, a prefix of the input's digits, all of them when they fit |
| BillRecords.OnlyDigitsMaxIdempotent | frontend/src/bill/Bill.jsx:97-100 | filtering an already filtered value changes nothing |
| BillRecords.ApplyChange | frontend/src/bill/Bill.jsx:569 | `{ ...item, [field]: value }`: only the named field of the item changes |
| BillRecords.WithoutPosition | frontend/src/bill/Bill.jsx:579 | `filter((_, i) => i !== index)`: exactly that position goes; an index past the end removes nothing |
| BillRecords.RemoveItemTotals | frontend/src/bill/Bill.jsx:576-583 | removing a line lowers the subtotal by that line's amount |
| BillRecords.SubtotalWithout | frontend/src/bill/Bill.jsx:579 | the subtotal after removal is that of the lines before and after the position |
| BillRecords.SubtotalAround | frontend/src/bill/Bill.jsx:78-79 | the subtotal is the subtotal of the other lines plus this line's amount |
| BillRecords.SubtotalSplit | frontend/src/bill/Bill.jsx:78-79 | a line in the middle adds its amount to the subtotal of the rest |
| BillRecords.SubtotalSingle | frontend/src/bill/Bill.jsx:78-79 | the subtotal of one line is its amount |
| BillRecords.ToInsert | frontend/src/bill/Bill.jsx:652-656 | a quotation is saved without additional information; an invoice is saved as it is; nothing else changes |
| BillRecords.ReplaceById | frontend/src/bill/Bill.jsx:667-673 | the edited form takes the place of every record with its database id; the others stay, in place |
| BillRecords.SavedList | frontend/src/bill/Bill.jsx:661-674 | a new record goes in front of the list; a stored one replaces the record with its database id |
| BillRecords.SearchRecords | frontend/src/bill/Bill.jsx:463-488 | a blank term clears the filter; another term keeps, in order, exactly the records whose serial, number, customer or displayed date contains the lower-cased term |
| BillRecords.BillBook.constructor | frontend/src/bill/Bill.jsx:640-646 | the page opens with empty lists, a blank form of each kind, the invoice list shown (no page is chosen yet), an empty search, no filter and page 1 |
| BillRecords.BillBook.AddItem | frontend/src/bill/Bill.jsx:551-564 | a blank line is appended to that kind's form; the other form, both lists, the shown kind, the search, the filter and the page stay |
| BillRecords.BillBook.UpdateItem | frontend/src/bill/Bill.jsx:566-574 | only the chosen field of the chosen line of that kind's form changes; the other form, both lists, the shown kind, the search, the filter and the page stay |
| BillRecords.BillBook.RemoveItem | frontend/src/bill/Bill.jsx:576-583 | exactly the chosen line goes, the rest keep their order; an index past the end changes nothing; the other form, both lists, the shown kind, the search, the filter and the page stay |
| BillRecords.BillBook.SaveRecord | frontend/src/bill/Bill.jsx:649-704 | an invalid form changes nothing; a valid one updates the local list at once; when the server accepts it the form becomes a blank one numbered from the updated list (the corrected numbering); the other kind, the shown kind, the search, the filter and the page stay |
| BillRecords.BillBook.OnSave | frontend/src/bill/Bill.jsx:1322-1328 | a form failing `validateAllFields` is refused and nothing changes; a complete one is saved exactly when it also passes `validateForm`, the list then becoming `SavedList` of it |
| BillRecords.BillBook.SaveRecordAsWritten | frontend/src/bill/Bill.jsx:649-695 | as `SaveRecord`, except that after an accepted save the blank form is numbered from the list held before the save, as the handler's captured list does |
| BillRecords.BillBook.OpenAdd | frontend/src/bill/Bill.jsx:1081-1089 | the form of that kind becomes a blank one numbered from the current list, so its number is on no record of that list; nothing else changes |
| BillRecords.BillBook.SetRecords | frontend/src/bill/Bill.jsx:620-638 | a fetch replaces that kind's list; both forms, the other list, the shown kind, the search, the filter and the page stay |
| BillRecords.BillBook.SetForm | frontend/src/bill/Bill.jsx:643-644 | setting a form replaces that kind's form; the other form, both lists, the shown kind, the search, the filter and the page stay |
| BillRecords.BillBook.Search | frontend/src/bill/Bill.jsx:463-488 | the filter becomes `SearchRecords` of the shown kind's list and the page goes back to 1; the shown records are a subsequence of the list |
| BillRecords.BillBook.ShowPageAsWritten | frontend/src/bill/Bill.jsx:1118-1149 | a sidebar button changes only the shown kind; the search term, the filter and the page stay, so an earlier search goes on being displayed on the other kind's page |
| BillRecords.BillBook.ShowPage | frontend/src/bill/Bill.jsx:1118-1149 | the corrected switch: the chosen kind is shown with an empty search, no filter and page 1, so the table shows the first page of that kind's own list |
| BillRecords.BillBook.PreviousPage | frontend/src/bill/Bill.jsx:1294 | the page goes back by one and never below 1; nothing else changes |
| BillRecords.BillBook.GoToPage | frontend/src/bill/Bill.jsx:1295-1299 | a numbered button, offered for each page from 1 to the page count, shows that page; nothing else changes |
| BillRecords.BillBook.NextPage | frontend/src/bill/Bill.jsx:1301 | the page goes forward by one and never past the last page; nothing else changes |
| BillRecords.StaleFilterAfterSwitch | frontend/src/bill/Bill.jsx:463-490 | a search on the invoice page, then a switch to the quotation page: with no quotation stored, the page still lists the matching invoice |
| BillRecords.FreshListAfterSwitch | frontend/src/bill/Bill.jsx:463-490 | the same steps with the corrected switch: the quotation page shows the quotation list itself, here empty |
| BillRecords.BillBook.CurrentRecords | frontend/src/bill/Bill.jsx:490-493 | the current page holds at most ten rows, all from the displayed list |
| BillRecords.BillBook.TotalPages | frontend/src/bill/Bill.jsx:494 | at least one page; ceil(n / 10) pages for a non-empty list |
| BillRecords.StaleNumberRepeats | frontend/src/bill/Bill.jsx:689-695 | as written, the blank form after saving a fresh form carries the number just saved |
| BillRecords.FreshFormNumberIsNew | frontend/src/bill/Bill.jsx:689-695 | numbered from the updated list, the blank form's number is on no record of it |
| PrintLayout.ReplaceAllAppend | backend/controllers/printJobController.js:14-17 | a global one-character replace works piece by piece over a concatenation |
| PrintLayout.EscapeHtml | backend/controllers/printJobController.js:12-18 | a missing value prints as nothing; the four passes amount to replacing each of `&`, `<`, `>`, `"` by its entity in one pass |
| PrintLayout.EscapePassesPerChar | backend/controllers/printJobController.js:13-17 | the four passes applied to one character give its entity or the character itself |
| PrintLayout.EscapeRoundTrip | backend/controllers/printJobController.js:12-18 | escaping loses nothing: unescaping gives back exactly the text, whatever entities it already contained |
| PrintLayout.ShowAdditionalInfo | backend/controllers/printJobController.js:152-154 | the block shows exactly when the flag is `true` and the text holds something other than white space |
| PrintLayout.RowGst | backend/controllers/printJobController.js:100-102 | a row's GST is amount × rate / 100 and agrees with the editor's per-line GST |
| PrintLayout.RowSerial | backend/controllers/printJobController.js:106 | a row's serial is its 1-based position padded to two digits |
| PrintLayout.RowFigures | backend/controllers/printJobController.js:99-124 | a row shows the amount and rate, CGST = SGST = half the GST, and amount + GST, all as the editor computes them |
| PrintLayout.PagesOf | backend/controllers/printJobController.js:127-132 | the pages are the 12-row chunks, or one empty page when there is no item |
| PrintLayout.Paginate | backend/controllers/printJobController.js:127-132 | the pagination loop produces exactly `PagesOf` |
| PrintLayout.PagesProperties | backend/controllers/printJobController.js:127-132 | paging loses and adds nothing: the pages put together are the items; max(1, ceil(N / 12)) pages of at most 12 rows each |
| PrintLayout.LayOutPages | backend/controllers/printJobController.js:408-608 | the page loops produce the reference layout: the first page, then the continuation pages, with the summary on the last page only |
| PrintLayout.BuildHtml | backend/controllers/printJobController.js:78-612 | the document is the layout of the paginated items, with the additional-information decision |
| PrintLayout.DocumentShape | backend/controllers/printJobController.js:408-608 | max(1, ceil(N / 12)) pages; every page after the first is a continuation; the summary and the additional information are on the last page only |
| PrintLayout.RowsInItemOrder | backend/controllers/printJobController.js:523-525 | serials run 01..N in item order across the whole document |
| PrintLayout.TotalGstAgrees | backend/controllers/printJobController.js:136-140 | the print's GST total equals the editor's |
| PrintLayout.ServerTotals | backend/controllers/printJobController.js:135-146 | subtotal and GST as in the editor; final total = subtotal + GST − discount, the editor's total without round-off; words of the rounded total |
| PrintLayout.TotalsAgainstEditor | backend/controllers/printJobController.js:142-146 | the printed total ignores the round-off switch; the editor's total with round-off is the printed total rounded |
| PrintLayout.WordsAgreeWithEditor | backend/controllers/printJobController.js:146 | from 1 to 10^10 − 1 the printed words match the editor's for the same record |
| PrintLayout.RoundOffNotApplied | backend/controllers/printJobController.js:144 | with round-off on, one line of 10.40 prints 10.40 while the editor shows 10 |
| PrintLayout.PrintDocument | backend/controllers/printJobController.js:675-681 | no record: 400 "Record data missing"; otherwise the laid-out document and its totals |
| LoginFlow.MaskEmail | frontend/src/login/Login.jsx:41-44 | the first and last character of the local part, a star for each one between, then '@' and the domain |
| LoginFlow.MaskEmailKeepsShape | frontend/src/login/Login.jsx:41-44 | the mask is as long as the address and differs from it only strictly inside the local part |
| LoginFlow.AdminEmailParts | frontend/src/login/Login.jsx:152 | the administrator's mask keeps its first and last local characters, has ten stars between them, then the domain |
| LoginFlow.ColonJoin | frontend/src/login/Login.jsx:49 | minutes, ':' and two-digit seconds |
| LoginFlow.FormatTime | frontend/src/login/Login.jsx:46-50 | "mm:ss", five characters below 100 minutes |
| LoginFlow.FormatTimeRoundTrip | frontend/src/login/Login.jsx:46-50 | reading the text back gives the seconds shown |
| LoginFlow.FormatOtpTime | frontend/src/login/Login.jsx:8 | the full countdown shows "03:00" |
| LoginFlow.TickOnce | frontend/src/login/Login.jsx:80 | one tick lowers the countdown by one and stops at zero |
| LoginFlow.CountDown | frontend/src/login/Login.jsx:79-81 | k ticks leave max(t − k, 0) |
| LoginFlow.ResendAfterCountdown | frontend/src/login/Login.jsx:402-410 | "Resend" is offered exactly once the 180 ticks have passed |
| LoginFlow.CountdownAfterSend | frontend/src/login/Login.jsx:75-84 | the countdown restarts only when the step changes to otp |
| LoginFlow.ResendKeepsCountdownAtZero | frontend/src/login/Login.jsx:75-84 | a resend from the otp step leaves the countdown at zero, so "Resend" stays offered |
| LoginFlow.RestartedCountdownShowsTime | frontend/src/login/Login.jsx:402-405 | a restarted countdown shows "03:00" and offers no resend for 180 ticks |
| LoginFlow.OtpAfterChange | frontend/src/login/Login.jsx:161-165 | a single digit or empty value replaces slot i; anything else is ignored; other slots stay |
| LoginFlow.OtpChangeKeepsSlots | frontend/src/login/Login.jsx:161-165 | slots stay empty or single digits |
| LoginFlow.CompleteCodeIsDigits | frontend/src/login/Login.jsx:177-188 | with no empty slot the code sent is six digits, slot by slot |
| LoginFlow.UpperAndDigitOnOneLine | frontend/src/login/Login.jsx:222 | the look-ahead test holds exactly when there is an upper-case letter and a digit |
| LoginFlow.ResetError | frontend/src/login/Login.jsx:206-239 | no error exactly when the new password has 6 characters or more, an upper-case letter and a digit, and equals the confirmation |
| LoginFlow.ResetErrorOrder | frontend/src/login/Login.jsx:209-239 | the checks come in order and each names its own failure |
| LoginFlow.ServerStrongPassesClient | frontend/src/login/Login.jsx:216-227 | a password the server calls strong passes the page's checks |
| LoginFlow.ClientLooserThanServer | backend/controllers/userController.js:201-206 | "ABCDE1" passes the page but the server refuses it: the page does not ask for a lower-case letter |
| LoginFlow.MatchUser | frontend/src/login/Login.jsx:99-103 | the first fetched user with that username and that password, or none |
| LoginFlow.MessageOr | frontend/src/login/Login.jsx:148 | the server's message, or the fallback when it has none |
| LoginFlow.EmptySlots | frontend/src/login/Login.jsx:61 | six empty slots |
| LoginFlow.AdminEmailMaskable | frontend/src/login/Login.jsx:152 | the administrator's address has a local part long enough to mask |
| LoginFlow.LoginRule | frontend/src/login/Login.jsx:87-133 | signing in succeeds exactly when both fields are filled and some fetched user matches; success clears the fields |
| LoginFlow.ResendAsWrittenKeepsZero | frontend/src/login/Login.jsx:136-158 | as written, a successful resend leaves the countdown at zero |
| LoginFlow.SendRule | frontend/src/login/Login.jsx:136-158 | a successful send opens the otp step with empty slots and the full countdown; a failed one only shows a notice |
| LoginFlow.TickRule | frontend/src/login/Login.jsx:75-84 | ticks only count the otp step's countdown down; k ticks from the start leave max(180 − k, 0) |
| LoginFlow.VerifyRule | frontend/src/login/Login.jsx:176-203 | nothing is posted while a slot is empty; a complete entry posts its digits in order; only an accepted code opens the reset step |
| LoginFlow.ResetRule | frontend/src/login/Login.jsx:206-266 | a refused check or request only sets the error line; an accepted reset returns to the login step with cleared fields |
| LoginFlow.StepTransitions | frontend/src/login/Login.jsx:60 | login → otp on an accepted send, otp → reset on an accepted code, reset → login on an accepted reset, and no other step change |
| LoginFlow.LoginScreen.constructor | frontend/src/login/Login.jsx:56-70 | the page opens on the login step with empty fields, empty slots and the full countdown |
| LoginFlow.LoginScreen.EnterCredentials | frontend/src/login/Login.jsx:56 | typing changes only the username and password |
| LoginFlow.LoginScreen.EnterNewPassword | frontend/src/login/Login.jsx:64-65 | typing changes only the new password and its confirmation |
| LoginFlow.LoginScreen.HandleLogin | frontend/src/login/Login.jsx:87-133 | the screen after signing in is `AfterLogin` of the screen before |
| LoginFlow.LoginScreen.SendOtpAsWritten | frontend/src/login/Login.jsx:136-158 | the screen after a send, as written, is `AfterSendAsWritten` |
| LoginFlow.LoginScreen.SendOtp | frontend/src/login/Login.jsx:136-158 | the screen after a send, with the countdown restarted, is `AfterSend` |
| LoginFlow.LoginScreen.Tick | frontend/src/login/Login.jsx:79-81 | the screen after one second is `AfterTick` |
| LoginFlow.LoginScreen.HandleOtpChange | frontend/src/login/Login.jsx:161-168 | only the slots change, as `OtpAfterChange` says |
| LoginFlow.LoginScreen.VerifyOtp | frontend/src/login/Login.jsx:176-203 | the screen becomes `AfterVerify`, and the code posted is `VerifySent` |
| LoginFlow.LoginScreen.ResetPassword | frontend/src/login/Login.jsx:206-266 | the screen becomes `AfterReset`, and the password posted is `ResetSent` |
| UserAccounts.FindUsername | backend/controllers/userController.js:47 | the first user with that username, or none when no user has it |
| UserAccounts.WithoutId | backend/controllers/userController.js:72 | the users left after deleting an id: exactly those with another id |
| UserAccounts.WithoutAbsentId | backend/controllers/userController.js:70-77 | deleting an absent id changes nothing |
| UserAccounts.WithoutPresentId | backend/controllers/userController.js:70-77 | with unique ids, deleting a present id removes exactly one user |
| UserAccounts.WithoutIdUnique | backend/controllers/userController.js:72 | deleting keeps ids unique |
| UserAccounts.OtpNumber | backend/controllers/userController.js:93 | the code is a whole number from 100000 to 999999 |
| UserAccounts.OtpCode | backend/controllers/userController.js:93 | the code is six digits, the first not zero, reading as that number |
| UserAccounts.UserStore.Find | backend/controllers/userController.js:47 | the loop finds the first user with that username |
| UserAccounts.UserStore.CreateUser | backend/controllers/userController.js:39-67 | 400 unless name, phone, username and password are all given; 409 if the username is taken; otherwise 201 and the new user appended |
| UserAccounts.UserStore.DeleteUser | backend/controllers/userController.js:70-77 | always success; only users with that id go, one at most when it was present |
| UserAccounts.UserStore.SendAdminOtp | backend/controllers/userController.js:80-161 | the outcome is that of the reference `SendOtp`; user ids stay unique |
| UserAccounts.UserStore.VerifyAdminOtp | backend/controllers/userController.js:164-189 | the outcome is that of the reference `VerifyOtp`; user ids stay unique |
| UserAccounts.UserStore.ResetAdminPassword | backend/controllers/userController.js:192-278 | the outcome is that of the reference `ResetPassword`; user ids stay unique |
| UserAccounts.FindFirst | backend/controllers/userController.js:47 | the first user with the username is the one found |
| UserAccounts.SendOtpEffect | backend/controllers/userController.js:93-98 | issuing an OTP changes only the administrator's record: a six-digit code, an expiry ten minutes on, not verified |
| UserAccounts.VerifyOtpRule | backend/controllers/userController.js:173-182 | an OTP is accepted exactly when one is stored, the code matches and it has not expired; acceptance only sets the verified flag |
| UserAccounts.ResetCheckOrder | backend/controllers/userController.js:196-219 | missing password, weak password, missing administrator, OTP not verified, same password, in that order |
| UserAccounts.ResetIgnoresMail | backend/controllers/userController.js:229-271 | a failed confirmation mail does not change the reset's outcome |
| UserAccounts.SecondResetRefused | backend/controllers/userController.js:222-226 | a successful reset clears the OTP, its expiry and the verified flag, so a second reset is refused |
| UserAccounts.ReissueRevokesVerification | backend/controllers/userController.js:95-97 | a new OTP withdraws an earlier verification |
| UserAccounts.ResetFlow | backend/controllers/userController.js:80-278 | an OTP sent and entered within ten minutes lets the administrator set any strong new password |
| UserAccounts.SendThenVerify | backend/controllers/userController.js:164-189 | sending and entering the code in time leaves the administrator verified |
| UserAccounts.ResetAfterVerify | backend/controllers/userController.js:192-226 | once verified, a strong new password is taken and the reset fields are cleared |
| UserAccounts.ExpiredOtpRefused | backend/controllers/userController.js:176 | a code entered after its ten minutes is refused |
| UserAccess.AllInAccessList | frontend/src/useraccess/UserAccess.jsx:24-31 | every feature is on the access list |
| UserAccess.SetFlag | frontend/src/useraccess/UserAccess.jsx:357-364 | ticking a box changes that feature's flag and no other |
| UserAccess.EmptyAndFull | frontend/src/useraccess/UserAccess.jsx:33-49 | the empty access grants nothing; the full access grants everything |
| UserAccess.Every | frontend/src/useraccess/UserAccess.jsx:52 | `every` holds exactly when each listed feature is granted |
| UserAccess.IsFullAccess | frontend/src/useraccess/UserAccess.jsx:51-52 | full access exactly when an access object is present and grants every feature |
| UserAccess.AccessLabel | frontend/src/useraccess/UserAccess.jsx:191-192 | "Full Access" exactly for an administrator or a user holding every flag; "Limited Access" otherwise |
| UserAccess.ShownFeatures | frontend/src/useraccess/UserAccess.jsx:438-439 | the view lists, in access-list order, exactly the granted features; all of them for an administrator |
| UserAccess.ShownFeaturesMembers | frontend/src/useraccess/UserAccess.jsx:438-439 | a feature is listed exactly when it is shown |
| UserAccess.Position | frontend/src/useraccess/UserAccess.jsx:24-31 | each feature has one place in the access list |
| UserAccess.FilteredUsers | frontend/src/useraccess/UserAccess.jsx:118-122 | the users whose name or username contains the lower-cased search, all of them and in order |
| UserAccess.EmptySearchListsAll | frontend/src/useraccess/UserAccess.jsx:118-122 | an empty search lists every user |
| UserAccess.UserForm.constructor | frontend/src/useraccess/UserAccess.jsx:150-158 | "New User" opens a blank form for role "user" with no flags |
| UserAccess.UserForm.ChooseUser | frontend/src/useraccess/UserAccess.jsx:325 | "User" sets the role and clears every flag, keeping the other fields |
| UserAccess.UserForm.ChooseAdmin | frontend/src/useraccess/UserAccess.jsx:337 | "Admin" sets the role and every flag, keeping the other fields |
| UserAccess.UserForm.Check | frontend/src/useraccess/UserAccess.jsx:357-364 | a checkbox changes only its own feature's flag |
| UserAccess.UserForm.PhoneChange | frontend/src/useraccess/UserAccess.jsx:124-129 | non-digits are dropped; the input is taken only while it holds at most ten digits |
| UserAccess.UserForm.Payload | frontend/src/useraccess/UserAccess.jsx:95-98 | an administrator is always sent with every flag set; a user with the ticked flags |
| UserAccess.AdminPayloadIgnoresCheckboxes | frontend/src/useraccess/UserAccess.jsx:95-98 | an administrator is sent with full access even if a box is unticked while "Admin" is chosen (a state the page, which disables the boxes for an administrator, does not reach) |
| JobPost.Classify | frontend/src/job/JobPost.jsx:81-88 | both numbers zero: fresher; a zero or smaller right-hand number: "at least" the left; otherwise a range with left ≤ right |
| JobPost.SmallerRightIsLost | frontend/src/job/JobPost.jsx:86 | a right-hand number below the left one is dropped from the built text |
| JobPost.BuildSeparatesBands | frontend/src/job/JobPost.jsx:81-88 | equal texts come from inputs of the same class |
| JobPost.RangeAt | frontend/src/job/JobPost.jsx:50 | the range pattern at a position: two non-empty digit groups |
| JobPost.FindRange | frontend/src/job/JobPost.jsx:50 | the first match of the range pattern, two non-empty digit groups |
| JobPost.ParseExperience | frontend/src/job/JobPost.jsx:36-56 | the two inputs filled from a stored experience text are always digits |
| JobPost.ParseYears | frontend/src/job/JobPost.jsx:45-48 | "N years" reads back as N padded to two digits and "00" |
| JobPost.RangeAtStart | frontend/src/job/JobPost.jsx:50 | the range pattern matches a built range at its start with its two numbers |
| JobPost.RangeNotYearsOnly | frontend/src/job/JobPost.jsx:45 | a built range is not mistaken for "N years" |
| JobPost.ParseRange | frontend/src/job/JobPost.jsx:50-54 | "a - b years" reads back as a and b padded to two digits |
| JobPost.ParseBuilt | frontend/src/job/JobPost.jsx:36-88 | reading a built text back gives the two numbers padded to two places, except that a dropped right-hand number reads as "00" |
| JobPost.ExperienceRoundTrip | frontend/src/job/JobPost.jsx:36-88 | for inputs below 100 with no smaller right-hand number, the edit form shows the inputs that were saved |
| JobPost.BuiltExperienceIsStable | frontend/src/job/JobPost.jsx:36-88 | opening a saved job and saving it untouched writes the same experience text |
| JobPost.DigitRuns | frontend/src/job/JobPost.jsx:486 | `match(/(\d+)/g)`: the maximal digit runs, in order |
| JobPost.RunsOfYears | frontend/src/job/JobPost.jsx:486 | "N years" has the single run N |
| JobPost.RunsOfRange | frontend/src/job/JobPost.jsx:486 | "a - b years" has the runs a and b |
| JobPost.PreviewOfBuilt | frontend/src/job/JobPost.jsx:485-493 | the preview's short label of a built text uses the same classification as the form |
| JobPost.ToList | frontend/src/job/JobPost.jsx:419-424 | nothing for empty text, a list as it is, text split into trimmed non-empty lines |
| JobPost.ListRoundTrip | frontend/src/job/JobPost.jsx:66-71 | a list of clean entries survives being joined for editing and split again on saving |
| JobPost.SavedListIsStable | frontend/src/job/JobPost.jsx:101-108 | a saved list is clean, and reopening and saving it changes nothing |
| JobPost.BlankForm | frontend/src/job/JobPost.jsx:9-21 | the new-job form is valid and builds "Fresher" |
| JobPost.FormOf | frontend/src/job/JobPost.jsx:58-74 | the form filled from a stored job is valid, with a status |
| JobPost.TypeExperience | frontend/src/job/JobPost.jsx:179-192 | typing into an experience input keeps its digits only and the form valid |
| JobPost.ReuploadUnchanged | frontend/src/job/JobPost.jsx:90-115 | opening an uploaded job and uploading it again unchanged posts the same job data |
| JobPost.SearchJobs | frontend/src/job/JobPost.jsx:618-624 | exactly the jobs whose serial, title or designation contains the lower-cased term, in order |
| JobPost.LowerOfDigits | frontend/src/job/JobPost.jsx:619-622 | lower-casing digits changes nothing |
| JobPost.SearchBySerial | frontend/src/job/JobPost.jsx:619-623 | searching for a job's two-digit serial finds it |
| JobPost.Removed | frontend/src/job/JobPost.jsx:650 | exactly the jobs with another id, in order |
| JobPost.RemovedIdempotent | frontend/src/job/JobPost.jsx:650 | deleting twice is deleting once |
| JobPost.Replaced | frontend/src/job/JobPost.jsx:672 | the job the server returns takes the place of every job with its id |
| JobPost.DeletedJobStillShown | frontend/src/job/JobPost.jsx:647-656 | as written, during a search the deleted job stays on the shown list though it left the job list |
| JobPost.DeleteHidesJob | frontend/src/job/JobPost.jsx:647-656 | after the corrected delete no shown job has the deleted id and every other shown job stays |
| JobPost.TotalPages | frontend/src/job/JobPost.jsx:633 | at least one page |
| JobPost.RowSerialIsPosition | frontend/src/job/JobPost.jsx:854 | row k of the current page shows the job at that position of the displayed list, with its serial |
| JobPost.JobBoard.constructor | frontend/src/job/JobPost.jsx:586-595 | the board opens empty, unfiltered, on page 1 |
| JobPost.JobBoard.Load | frontend/src/job/JobPost.jsx:597-603 | the fetched jobs, or none when the fetch fails |
| JobPost.JobBoard.HandleSearch | frontend/src/job/JobPost.jsx:611-627 | the board becomes `AfterSearch`: a blank term clears the filter, another filters; page 1 |
| JobPost.JobBoard.DeleteAsWritten | frontend/src/job/JobPost.jsx:647-656 | once the request is sent, the job leaves the job list but not the filtered list |
| JobPost.JobBoard.Delete | frontend/src/job/JobPost.jsx:647-656 | once the request is sent, the job leaves both lists |
| JobPost.JobBoard.SaveEdited | frontend/src/job/JobPost.jsx:663-673 | the job the server returns replaces the one with its id |
| JobPost.JobBoard.Create | frontend/src/job/JobPost.jsx:674-683 | the job the server returns goes in front |
| JobPost.JobBoard.PreviousPage | frontend/src/job/JobPost.jsx:928 | one page back, never below 1 |
| JobPost.JobBoard.NextPage | frontend/src/job/JobPost.jsx:945 | one page on, never beyond the last |
| JobPost.NextPageShowsRows | frontend/src/job/JobPost.jsx:629-633 | after "Next" the page shown is non-empty whenever the displayed list is |
| Applicants.NormalStatus | frontend/src/applicants/Applicants.jsx:299 | "new" and a missing or empty status become "view"; any other status stays |
| Applicants.Normalised | frontend/src/applicants/Applicants.jsx:297-300 | every applicant with its status made uniform, nothing else changed |
| Applicants.NormalisedIdempotent | frontend/src/applicants/Applicants.jsx:297-300 | normalising twice is normalising once |
| Applicants.BySearch | frontend/src/applicants/Applicants.jsx:338-340 | exactly the applicants whose name, designation and skills text contains the lower-cased search |
| Applicants.ByStatus | frontend/src/applicants/Applicants.jsx:344 | exactly the applicants with that status |
| Applicants.Filtered | frontend/src/applicants/Applicants.jsx:328-347 | no filter at all exactly for a blank search with "all" statuses |
| Applicants.FilteredMembers | frontend/src/applicants/Applicants.jsx:328-347 | the filter keeps exactly the applicants that pass both tests, in order |
| Applicants.FilteredIsSubsequence | frontend/src/applicants/Applicants.jsx:328-347 | the filtered list is a subsequence of the list |
| Applicants.WithStatus | frontend/src/applicants/Applicants.jsx:362-364 | the applicant with that id gets the new status; nothing else changes |
| Applicants.WithStatusIdempotent | frontend/src/applicants/Applicants.jsx:362-364 | setting a status twice is setting it once; ids keep their places |
| Applicants.TotalPages | frontend/src/applicants/Applicants.jsx:376 | no page for an empty list; otherwise the fewest pages of ten that hold the list |
| Applicants.EveryRowOnAPage | frontend/src/applicants/Applicants.jsx:373-376 | every row is on one of the counted pages, at its place |
| Applicants.Refiltered | frontend/src/applicants/Applicants.jsx:328-349 | the effect's outcome: the filter, and page 1 whenever a filter applies |
| Applicants.ApplicantsPage.constructor | frontend/src/applicants/Applicants.jsx:288-290 | the page opens empty, unfiltered, on page 1 |
| Applicants.ApplicantsPage.Refilter | frontend/src/applicants/Applicants.jsx:328-349 | the filter is recomputed from the list, search and status |
| Applicants.ApplicantsPage.Load | frontend/src/applicants/Applicants.jsx:292-308 | the fetched list with uniform statuses, or no change when the fetch fails |
| Applicants.ApplicantsPage.Search | frontend/src/applicants/Applicants.jsx:459-465 | a new term re-runs the filtering effect (the filter follows and the page goes back to 1); the same term leaves the page state as it is |
| Applicants.ApplicantsPage.ChooseStatus | frontend/src/applicants/Applicants.jsx:440-450 | a different option re-runs the filtering effect (the filter follows and the page goes back to 1); re-choosing the selected option leaves the page state, current page included, as it is |
| Applicants.ApplicantsPage.StatusChange | frontend/src/applicants/Applicants.jsx:352-371 | the list changes only when the server accepts, and then only that applicant's status; the result says which |
| Applicants.ApplicantsPage.PreviousPage | frontend/src/applicants/Applicants.jsx:531 | one page back, never below 1 |
| Applicants.ApplicantsPage.NextPage | frontend/src/applicants/Applicants.jsx:543 | one page on, never beyond the last |
| Applicants.NoFilterListsAll | frontend/src/applicants/Applicants.jsx:373 | with no filter the list is every applicant |
| Applicants.Opened | frontend/src/applicants/Applicants.jsx:24-27 | the detail page opens on the applicant's status, "view" when missing, with nothing changed |
| Applicants.AutoViewOnce | frontend/src/applicants/Applicants.jsx:30-47 | a page opened on "view" sends one "viewed" update; running the effect again sends nothing more |
| Applicants.DoneSendsOnlyChanges | frontend/src/applicants/Applicants.jsx:55-61 | "Done" sends at most one update, for this applicant, with a chosen status that differs from the stored one |
| Applicants.ApplicantDetail.constructor | frontend/src/applicants/Applicants.jsx:24-27 | the page state is `Opened` |
| Applicants.ApplicantDetail.AutoView | frontend/src/applicants/Applicants.jsx:30-47 | the state becomes `AfterAutoView` |
| Applicants.ApplicantDetail.Choose | frontend/src/applicants/Applicants.jsx:49-53 | the state becomes `AfterChoose` |
| Applicants.ApplicantDetail.Done | frontend/src/applicants/Applicants.jsx:55-61 | the state becomes `AfterDone` |
| WebForm.VisibleJobs | frontend/src/web/Web.jsx:784 | exactly the jobs whose status is not "Inactive", as a subsequence of the list (order kept) |
| WebForm.ApplyOnlyWhenActive | frontend/src/web/Web.jsx:286-332 | every job that can be applied for is listed; a listed job that is not active has no apply button |
| WebForm.ModalLists | frontend/src/web/Web.jsx:28-41 | the skills and the qualifications are each the stored list, or the trimmed non-empty lines of the stored text; the responsibilities are the lines of their text |
| WebForm.PublishedListsMatch | frontend/src/web/Web.jsx:28-41 | a job saved by the job board shows visitors the same lists as the board's preview |
| WebForm.Changed | frontend/src/web/Web.jsx:43-53 | an edit changes only the edited field: the mobile number becomes the first ten digits typed (all of them when there are at most ten), the e-mail becomes the typed text lower-cased letter by letter, and every other text field is stored as typed; the resume is untouched |
| WebForm.ClearedError | frontend/src/web/Web.jsx:55 | only that field's error is cleared |
| WebForm.ValidEmailParts | frontend/src/web/Web.jsx:85 | a valid address is a non-empty run of allowed characters followed by "@gmail.com" |
| WebForm.TypedMobileValid | frontend/src/web/Web.jsx:46-48 | whatever is typed, the mobile field then holds a valid number exactly when ten digits or more were typed |
| WebForm.LowerOfNoCapitals | frontend/src/web/Web.jsx:50 | lower-casing text without capitals changes nothing |
| WebForm.ValidEmailIsLower | frontend/src/web/Web.jsx:85 | a valid address is unchanged by lower-casing |
| WebForm.ErrorsAreFailedFields | frontend/src/web/Web.jsx:91-105 | the error object names exactly the fields that fail their check |
| WebForm.NoErrorsWhenComplete | frontend/src/web/Web.jsx:91-107 | a complete form has no error |
| WebForm.ApplyModal.constructor | frontend/src/web/Web.jsx:88-149 | the modal opens with an empty form and no errors, nothing posted |
| WebForm.ApplyModal.OpenForm | frontend/src/web/Web.jsx:286-332 | "Apply" shows the form; only forms without errors stay posted (`Valid`) |
| WebForm.ApplyModal.Change | frontend/src/web/Web.jsx:43-56 | the form becomes that of `Changed`; the edited field's error is cleared as by `ClearedError`, except the description's, which its own `onChange` (Web.jsx:460-464) leaves shown; only forms without errors stay posted (`Valid`) |
| WebForm.ApplyModal.PickResume | frontend/src/web/Web.jsx:58-83 | no file clears the resume; a file of another type only sets the resume error; an accepted one is kept and its error cleared; only forms without errors stay posted (`Valid`) |
| WebForm.ApplyModal.Submit | frontend/src/web/Web.jsx:88-149 | with any error, the errors are shown and nothing is posted; otherwise the form is posted, and an accepted post closes the form; only forms without errors stay posted (`Valid`) |
| WebForm.PostedFormsAreComplete | frontend/src/web/Web.jsx:88-149 | every form in a list of posted forms that all passed `submit` passes every field check, so it has a valid address, a valid number and a resume; `ApplyModal.Valid`, kept by every method of the modal, says the modal's posted list is such a list |
| WebForm.Words | frontend/src/web/Web.jsx:788 | `text.trim().split(/\s+/)`: the words, or one empty piece for blank text |
| WebForm.ShortenedWords | frontend/src/web/Web.jsx:786-792 | a shortened title is exactly its first `limit` words joined, followed by "..." |
| WebForm.ShortTitleUnchanged | frontend/src/web/Web.jsx:789-791 | a title of `limit` words or fewer is shown unchanged |
| GalleryStore.LastSegment | backend/controllers/galleryController.js:90 | the text after the last '/', which holds no '/' |
| GalleryStore.ItemOf | backend/controllers/galleryController.js:33-37 | an upload's item: its address, "video" exactly when the MIME type mentions video, "image" otherwise, and the original name |
| GalleryStore.ItemsOf | backend/controllers/galleryController.js:33-37 | one item per upload, in upload order |
| GalleryStore.UploadFiles | backend/routes/galleryRoutes.js:15-32 | the names the middleware stored are exactly the uploads' file names |
| GalleryStore.ItemFilesOfUploads | backend/controllers/galleryController.js:33-37 | the items made from a request name exactly the files it uploaded |
| GalleryStore.SegmentOfItem | backend/routes/galleryRoutes.js:19-23 | an item's address names the stored file it was made from |
| GalleryStore.WithoutFile | backend/controllers/galleryController.js:89-91 | exactly the items of other files, in order |
| GalleryStore.WithoutFileIdempotent | backend/controllers/galleryController.js:89-91 | deleting a file twice is deleting it once |
| GalleryStore.ItemFilesAppend | backend/controllers/galleryController.js:116-120 | the files of the items with one more item are the earlier files plus that item's file |
| GalleryStore.GalleryRecord.Load | backend/controllers/galleryController.js:55 | the loaded record is the stored gallery |
| GalleryStore.GalleryRecord.Update | backend/controllers/galleryController.js:60-69 | a supplied title replaces the old one; the new items follow the old ones |
| GalleryStore.GalleryRecord.RemoveFile | backend/controllers/galleryController.js:89-91 | the items become `WithoutFile`; the title stays |
| GalleryStore.Store.constructor | backend/controllers/galleryController.js:6-11 | no gallery yet, and the upload folder holds the given files |
| GalleryStore.Store.Create | backend/controllers/galleryController.js:28-45 | the route's middleware puts the uploads in the folder; a new gallery with one item per upload under a fresh id |
| GalleryStore.Store.Update | backend/controllers/galleryController.js:50-76 | the uploads reach the folder whatever the answer; 404 exactly for an unknown id; otherwise the title and items change as `GalleryRecord.Update` says |
| GalleryStore.Store.DeleteItemAsWritten | backend/controllers/galleryController.js:81-103 | 404 for an unknown id; otherwise the file's items go and the named file leaves the folder whether or not an item named it |
| GalleryStore.Store.DeleteItem | backend/controllers/galleryController.js:81-103 | the file leaves the folder only when an item of this gallery was made from it |
| GalleryStore.Store.DeleteFull | backend/controllers/galleryController.js:108-128 | 404 for an unknown id; otherwise every item's file leaves the folder, then the gallery is deleted |
| GalleryStore.TraversalNameMatchesNoItem | backend/controllers/galleryController.js:89-97 | a name holding '/' is the file of no item, and filtering the items by it leaves them all |
| GalleryStore.DeleteUploadedItem | backend/controllers/galleryController.js:63-91 | deleting the file of an uploaded item removes that item and keeps every item of another file |
| Listing.PageSlice | frontend/src/bill/Bill.jsx:491-493 | row k of page p is element (p − 1) × perPage + k of the list; a page holds at most perPage rows, all of them while the list lasts, and none past its end |
| Listing.PageOfIndex | frontend/src/job/JobPost.jsx:630-632 | the element at position i is on page i / perPage + 1, at row i % perPage |
| Listing.TotalPages | frontend/src/bill/Bill.jsx:494 | max(1, ceil(n / perPage)): 1 for an empty list, ceil(n / perPage) otherwise |
| Listing.ChunksProperties | backend/controllers/printJobController.js:130-131 | the chunks put back together are the list; there are ceil(n / size) of them, each non-empty and at most the size, all but the last exactly the size |
| Listing.Filter | frontend/src/web/Web.jsx:784 | `filter`: the elements kept are exactly those passing the test |
| Text.Trim | frontend/src/web/Web.jsx:36 | `trim`: no white space at either end, and no longer than the text |
| Text.Split | frontend/src/job/JobPost.jsx:101-102 | `split` on one character: never empty, and no piece holds the separator |
| Text.LinesOfJoin | frontend/src/job/JobPost.jsx:66-71 | trimmed, non-empty entries without newlines survive being joined with newlines and split again |
| Text.PadStart | frontend/src/bill/Bill.jsx:496 | `padStart`: the text ends the result, which is padded in front with the fill character up to the width |

## Left out

- Rendering: JSX, CSS, the logo and the `jsPDF`/Puppeteer drawing of the documents. The `toFixed(2)` number formatting too: the model keeps amounts exact.
- Side effects without model state: toasts, their timers and focus moves. The same goes for the confirm dialogs' open/closed flags and `console` output.
- The network, the database and the file system are outside the model. A request's outcome is a parameter (`sent`, `ok`, `response`, `fetched`); the database is a `map` or `seq` the handlers update.
- The server's 500 catch-alls are not modelled. Neither is the text of the mails sent.
- Time and randomness are parameters: `Date.now()`, the ISO date of the day and `Math.random()`.
- `backend/models/User.js` is not part of this model. This leaves out its schema validation, the unique index and the role enum that `createUser` relies on. `UserStore.CreateUser` checks the username itself, as the handler does.
- `getUsers`, `getGalleries` and their sort order are not modelled, and nor is `getPrinters`. The lists are taken as given.
- Regular expressions are written out as predicates. `\s` and `\d` stand for ASCII white space and digits; Unicode spaces are not modelled.
- `maxLength` limits on inputs are enforced by the browser and are not modelled.
- The search tests of `Bill.jsx` and `JobPost.jsx` number records with `indexOf(record) + 1`. This is the record's position when records are distinct objects, which is how it is modelled.
- The OTP mail says the code is valid for 3 minutes. The server gives it 10 minutes (`backend/controllers/userController.js:96`), and the model follows the code.
- `Gallery.jsx` (the gallery screen) and the multer storage configuration are not part of this model, beyond two facts: stored file names hold no '/', and a request's uploads are in the folder before its handler runs (`UploadFiles`). How `path.join` resolves a name is not modelled either: the folder is a set of names.
- `GalleryStore.Store.Create`: the database's choice of a fresh id is a `requires` that the id is unused.
- In `Applicants.jsx` the resume download and the resume modal are left out: they only fetch and display a file.
- In `Web.jsx` the `FormData` fields, navigation and the close callback are not modelled. `ApplyModal.Submit` records whether the form was posted.
- `WebForm.ApplyModal.PickResume`: after a rejected file the form keeps its previous resume, as the source does. Clearing the file input element is not modelled.
- `PrintLayout.ServerTotals`: a negative rounded total (a discount above 100%) makes the source index its word tables with negative numbers. There the model gives no words (`None`) rather than the text the source would produce.
- `Words.ClientNumberToWords`: the input is a whole non-negative amount or none. Rounding of fractional input is done by the caller (`BillMath.Round`). Negative input is not modelled.
- `Words.ServerNumberToWords`: NaN input is the `None` case; negative input is not modelled.
- `PrintLayout.ShowAdditionalInfo`: `=== true` is modelled with `Option<bool>`, so values of other types that are not `true` count as absent.
- `UserAccounts.OtpNumber`: `Math.random()` is a real in [0, 1); floating-point rounding of the product is not modelled.
- `BillRecords.BillBook.SaveRecord`: the refetch that follows an accepted save (`frontend/src/bill/Bill.jsx:686`) is not part of the method; it is modelled by a following `SetRecords` with the fetched list. The same holds for `SaveRecordAsWritten`. The flags that show and hide the two forms are not modelled.
- `BillRecords.BillBook`: the sidebar also opens the applicants, blogs, gallery, job and user-access pages; the class models only the invoice and quotation lists, so `showing` takes only those two values. Which buttons a user sees (the access flags) is `FirstAllowedPage`'s concern and is not repeated here.
- `WebForm.ApplyModal.Submit`: the address input has `type="email"` and the form has no `noValidate`, so the browser itself blocks a submit with a non-empty address that is not an e-mail address at all ("abc"), and `submit` never runs. The model runs `submit` and shows its errors instead. What is posted is the same.
- `BillRecords.NextNumber`: counters are unbounded integers. The source parses them into doubles, which lose digits above 2^53 (where `last + 1` can equal `last`) and print in exponent form from 10^21, so `NextNumberIsFresh` does not hold there. Only stored records can carry such numbers: the number input is read-only.
- `BillRecords.BillBook.SaveRecord`: requires that the form passes `validateAllFields`, which both "Save" buttons check before calling it (`BillBook.OnSave`).
- `Text.Lower` folds only the ASCII capitals A-Z, where JavaScript's `toLowerCase` folds every Unicode capital ("É" to "é"). So `BillRecords.SearchRecords`, `UserAccess.FilteredUsers`, `JobPost.SearchJobs`, `Applicants.BySearch` and the e-mail field of `WebForm.Changed` treat other capitals as distinct from their lower-case forms.
- `UserAccounts.UserStore.CreateUser`: the database's choice of a fresh id is a `requires` that the id is unused.
- `LoginFlow.MaskEmail`: defined only for a local part of two characters or more. The page only masks the administrator's fixed address, which qualifies (`AdminEmailMaskable`).

## Findings

| source | as written | input that shows it | evidently intended | confidence | as-written member | corrected member |
|---|---|---|---|---|---|---|
| frontend/src/bill/Bill.jsx:1025-1027 | `roundDiff = Math.round(grand) - grand`, but `grand` is already rounded when round-off is on, so the round-off line always shows 0 | one line of 10.40 with round-off on: the line shows 0, while the total falls from 10.40 to 10 | the round-off line is the rounded total less the exact one (−0.40 here) | high, not executed | BillMath.RoundDiffAlwaysZero | BillMath.RoundOffLine |
| frontend/src/bill/Bill.jsx:689-695 | after a save, the blank form left behind is numbered from the list captured before the save | saving the first quotation QU001 leaves a blank form numbered QU001 again; the number is never displayed, because that form is hidden at once (690, 693) and every way of showing a form again replaces it first: "Add" renumbers it from the current list (1081-1088), edit and preview replace it | number the next form from the list that includes the saved record (QU002); as written the defect is latent | high that the hidden form repeats the number, no visible effect; not executed | BillRecords.StaleNumberRepeats | BillRecords.FreshFormNumberIsNew |
| frontend/src/login/Login.jsx:75-84 | the countdown effect depends on `step` only; a resend from the otp step does not change `step`, so the countdown stays at 0 | send, wait 180 s, resend successfully: the page still shows "Resend" and no time | every successful send restarts the 3-minute countdown | high, not executed | LoginFlow.ResendAsWrittenKeepsZero | LoginFlow.SendRule |
| frontend/src/bill/Bill.jsx:463-490 | the sidebar's `setPage` changes only `page`; `filteredRecords`, `searchTerm` and `currentPage` are set only by the search and the pager, and `displayRecords` prefers `filteredRecords` | search an invoice number on the invoice page, then open the quotation page: it lists the matching invoices, whatever quotations are stored | switching lists clears the search and shows page 1 of the chosen list | high, not executed | BillRecords.StaleFilterAfterSwitch | BillRecords.FreshListAfterSwitch |
| frontend/src/job/JobPost.jsx:647-656 | delete removes the job from `jobs` but not from `filteredJobs`, which is what a search displays | search "dev", delete a shown job: it stays on screen until the next search | a deleted job disappears from the displayed list too | high, not executed | JobPost.DeletedJobStillShown | JobPost.DeleteHidesJob |
| backend/controllers/galleryController.js:89-97 | the file named in the request is unlinked whether or not an item of the gallery was made from it | a request through gallery A naming a file that only gallery B's items use: no item of A matches, A is unchanged, yet the file leaves the folder and B's items point at nothing; an encoded "..%2F" name likewise matches no item (how `path.join` resolves it is not modelled) | remove only a file that an item of this gallery names | medium, not executed | GalleryStore.Store.DeleteItemAsWritten | GalleryStore.Store.DeleteItem |
