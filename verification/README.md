# Phone-number list management, modelled in Dafny

This project models the list logic of two React components of a telecom
dashboard front end. Both derive what they show from a fixed in-memory array
with `filter` and `slice`.

- **The phone-number table** (`PhoneNumbersDashboard`). It has a search box,
  per-row checkboxes, a "select all" header checkbox, "SMS Enabled" and
  "Call Enabled" statistics, and a "Showing X of Y entries" line. Its "Add
  Number" button opens the buy dialog.
- **The buy-number dialog** (`BuyPhoneNumberModal`). It has a search box and
  pages of eight offers with "previous" and "next" buttons. Clicking an offer
  toggles whether it is selected. A "Save" button purchases the selection.

Each component's `useState` fields are the fields of a Dafny class. Its event
handlers are methods that update those fields synchronously. Everything the
component derives on each render is a pure function over `seq`, with lemmas
about it. The model sticks to what the code does, quirks included:

- typing a search does not reset the dialog's page cursor;
- the page count is 0 when nothing matches, and "next" then moves the cursor
  to page 0;
- "select all" selects every record, whatever the search box holds;
- ticking a row appends its id without checking whether it is already there.

Files:

- `seqs.dfy` (`Seqs`): JavaScript's `Array.prototype.filter` and
  `Array.prototype.slice`, and their properties. The properties are order
  preservation (`IsSubsequence`), membership, multiplicity, length as a count
  of passing positions, and keeping a sequence free of duplicates.
- `text.dfy` (`Text`): `toLowerCase` on ASCII letters, and `includes`. A lemma
  proves `includes` equal to the positional definition of a substring.
- `wrappers.dfy` (`Wrappers`): `Option`. It is used for the optional
  `location` and for "the `onOpenChange` callback was or was not called".
- `buy_phone_number_modal.dfy` (`BuyModal`): the dialog.
- `phone_numbers_dashboard.dfy` (`Dashboard`): the table page. It owns the
  dialog and the flag that says whether the dialog is open.

## Quirks the model keeps

The model states each of these behaviours of the code as it is:

- A new search keeps the dialog's `currentPage`
  (`BuyModal.BuyPhoneNumberModal.SetSearchQuery`).
- The page count is `Math.ceil(n / 8)`, which is 0 when nothing matches
  (`BuyModal.TotalPages`). "Next" then moves the cursor to page 0
  (`BuyModal.NextWithNoResultsGoesToZero`), and page 0 shows nothing
  (`BuyModal.Paginate`).
- A search can shrink the page count below the cursor. "Next" then steps back
  to the last page (`BuyModal.NextPage`).
- "Select all" selects every record, not only the rows the search shows
  (`Dashboard.PhoneNumbersDashboard.HandleSelectAll`).
- The table's selection is a list, and ticking a row appends the id without
  checking whether it is already there. The model proves the list stays
  duplicate-free and limited to record ids under the calls the table actually
  makes (`Dashboard.PhoneNumbersDashboard.HandleSelectNumber`).
- The dialog matches the number case-sensitively and the location
  case-insensitively (`BuyModal.OfferMatchesIff`).

## Model

| member | source | states |
|---|---|---|
| `Seqs.Filter` | src/components/PhoneNumbersDashboard.tsx:128-132 | `filter` returns an order-preserving subsequence of its input, no longer than it, holding exactly the input's elements that pass |
| `Seqs.FilterLength` | src/components/PhoneNumbersDashboard.tsx:178-186 | the length of a filtered list is the number of positions whose element passes |
| `Seqs.RemoveAll` | src/components/PhoneNumbersDashboard.tsx:94 | `filter(id => id !== x)` removes every occurrence of `x`, keeps every other id as often as before and in order, changes nothing when `x` is absent, and keeps a duplicate-free list duplicate-free |
| `Seqs.RemoveAllAfterAppend` | src/components/BuyPhoneNumberModal.tsx:53-57 | removing an id just appended to a list that lacked it gives back the list |
| `Seqs.JsSlice` | src/components/BuyPhoneNumberModal.tsx:50 | `slice(start, end)` is at most `end - start` long when `0 <= start <= end`, is the plain subrange for in-range bounds, and is empty when `end` is 0 or `start` is past the end, and holds only elements of the input |
| `Seqs.SliceIndex` | src/components/BuyPhoneNumberModal.tsx:50 | `slice` normalises an index into `[0, len]`: an in-range index is kept, any index past the end becomes `len`, and a negative one counts back from the end, stopping at 0 |
| `Text.LowerChar` | src/components/PhoneNumbersDashboard.tsx:129 | `toLowerCase` on one character maps `A`-`Z` to `a`-`z` with the same offset, keeps every other character, and never returns an upper-case ASCII letter |
| `Text.Lower` | src/components/PhoneNumbersDashboard.tsx:129 | `toLowerCase` keeps the length, leaves no upper-case ASCII letter, and keeps every character that is not one |
| `Text.Includes` | src/components/PhoneNumbersDashboard.tsx:129 | `includes` holds for the empty query, and only when the query is no longer than the text |
| `Text.IncludesIffOccurs` | src/components/BuyPhoneNumberModal.tsx:43-44 | `includes` holds exactly when the query occurs at some position of the text |
| `BuyModal.FilteredNumbers` | src/components/BuyPhoneNumberModal.tsx:42-45 | the dialog's matches are an order-preserving subsequence of the offers, holding exactly the matching offers, each as many times as in the offers; an empty query keeps all of them |
| `BuyModal.OfferMatches` | src/components/BuyPhoneNumberModal.tsx:43-44 | the empty query matches every offer, and a match needs the query to fit in the number or the location; its full meaning is `OfferMatchesIff` |
| `BuyModal.OfferMatchesIff` | src/components/BuyPhoneNumberModal.tsx:43-44 | an offer matches exactly when the query occurs verbatim in the number, or the lowercased query occurs in the lowercased location |
| `BuyModal.TotalPages` | src/components/BuyPhoneNumberModal.tsx:47-48 | the page count is the ceiling of `n / 8`: `(t-1)*8 < n <= t*8`, and it is 0 exactly when `n` is 0 |
| `BuyModal.StartIndex` | src/components/BuyPhoneNumberModal.tsx:49 | page `p` starts 8 items before the index where it ends (`p * 8`), and the start is non-negative exactly for pages from 1 on |
| `BuyModal.Paginate` | src/components/BuyPhoneNumberModal.tsx:49-50 | a page has at most 8 items; page `p >= 1` is `filtered[(p-1)*8 .. min(p*8, n)]`, is empty once `(p-1)*8 >= n`, page 0 is empty, and a page holds only filtered items |
| `BuyModal.PagesUpToIsPrefix` | src/components/BuyPhoneNumberModal.tsx:49-50 | pages 1 to `k` together are the first `min(8k, n)` filtered offers |
| `BuyModal.PagesReconstructFiltered` | src/components/BuyPhoneNumberModal.tsx:47-50 | pages 1 to the page count, read in order, give back the filtered offers exactly |
| `BuyModal.ShowingFirst` | src/components/BuyPhoneNumberModal.tsx:207 | the label's number is at most 8 and at most the match count, and equals one of them; `ShowingFirstIsFirstPageSize` ties it to page 1 |
| `BuyModal.ShowingFirstIsFirstPageSize` | src/components/BuyPhoneNumberModal.tsx:207 | the "Showing first N results" label counts the items of page 1, whatever page is shown |
| `BuyModal.PrevPage` | src/components/BuyPhoneNumberModal.tsx:214 | "previous" never goes below 1, decrements by exactly one above page 1, and gives 1 from pages 0 and 1 |
| `BuyModal.NextPage` | src/components/BuyPhoneNumberModal.tsx:227 | "next" never exceeds the page count, increments by one before the last page, and gives the page count from the last page and beyond |
| `BuyModal.NextWithNoResultsGoesToZero` | src/components/BuyPhoneNumberModal.tsx:227 | with no matching offers, "next" sets the page to 0 |
| `BuyModal.Toggle` | src/components/BuyPhoneNumberModal.tsx:52-58 | toggling flips the membership of the clicked number, leaves every other number's membership alone, and keeps the list duplicate-free |
| `BuyModal.ToggleTwice` | src/components/BuyPhoneNumberModal.tsx:52-58 | toggling twice restores the same members, and the exact list when the number was absent |
| `BuyModal.BuyPhoneNumberModal.constructor` | src/components/BuyPhoneNumberModal.tsx:38-40 | the dialog starts with an empty query, page 1 and no selection |
| `BuyModal.BuyPhoneNumberModal.Filtered` | src/components/BuyPhoneNumberModal.tsx:42-45 | the listed offers are an order-preserving subsequence of the shipped offers, holding exactly those matching the current query |
| `BuyModal.BuyPhoneNumberModal.PageCount` | src/components/BuyPhoneNumberModal.tsx:47-48 | `totalPages` under the current query is the ceiling of the match count over 8, and 0 exactly when nothing matches |
| `BuyModal.BuyPhoneNumberModal.Paginated` | src/components/BuyPhoneNumberModal.tsx:49-50 | the offers on screen are at most 8, all among the current matches, and none on page 0 |
| `BuyModal.BuyPhoneNumberModal.SetSearchQuery` | src/components/BuyPhoneNumberModal.tsx:142 | a search replaces the query and keeps the page cursor and the selection |
| `BuyModal.BuyPhoneNumberModal.GoToPreviousPage` | src/components/BuyPhoneNumberModal.tsx:214 | the cursor becomes `PrevPage` of the old cursor, at least 1 |
| `BuyModal.BuyPhoneNumberModal.GoToNextPage` | src/components/BuyPhoneNumberModal.tsx:227 | the cursor becomes `NextPage` of the old cursor and page count, at most the page count and never negative |
| `BuyModal.BuyPhoneNumberModal.HandleNumberSelect` | src/components/BuyPhoneNumberModal.tsx:52-58 | the selection becomes its toggle at the clicked number and stays duplicate-free |
| `BuyModal.BuyPhoneNumberModal.HandlePurchase` | src/components/BuyPhoneNumberModal.tsx:60-81 | with no selection nothing changes and `onOpenChange` is not called; otherwise the selection is emptied and `onOpenChange(false)` is requested |
| `BuyModal.MockOffersUnfiltered` | src/components/BuyPhoneNumberModal.tsx:18-28 | with an empty query the dialog lists all nine shipped offers |
| `BuyModal.MockOffersPaging` | src/components/BuyPhoneNumberModal.tsx:18-28 | the nine shipped offers with an empty query make two pages, of eight and of one |
| `BuyModal.WilmingtonFoundInAnyCase` | src/components/BuyPhoneNumberModal.tsx:19 | "wilm" and "WILM" both find the Wilmington offer |
| `Dashboard.FilteredNumbers` | src/components/PhoneNumbersDashboard.tsx:128-132 | the table's rows are an order-preserving subsequence of the records, holding exactly the matching records, each as many times as in the records; an empty query keeps all of them |
| `Dashboard.RecordMatches` | src/components/PhoneNumbersDashboard.tsx:129-131 | the empty query matches every record, and a match needs the query to fit in the number, the owner or a present location; its full meaning is `RecordMatchesIff` |
| `Dashboard.RecordMatchesIff` | src/components/PhoneNumbersDashboard.tsx:129-131 | a record matches exactly when the lowercased query occurs in its lowercased number, owner, or location when it has one; without a location only number and owner count |
| `Dashboard.SearchIgnoresCase` | src/components/PhoneNumbersDashboard.tsx:128-132 | two queries that lowercase alike show the same rows |
| `Dashboard.SearchSameAsLowercased` | src/components/PhoneNumbersDashboard.tsx:128-132 | a query shows the same rows as its lowercase form |
| `Dashboard.ShowingCounts` | src/components/PhoneNumbersDashboard.tsx:328 | in "Showing X of Y", X is the number of records the search matches (the rows shown), Y is the record count, so X never exceeds Y; X equals Y for an empty query |
| `Dashboard.CapabilityCount` | src/components/PhoneNumbersDashboard.tsx:178-186 | the "SMS Enabled" and "Call Enabled" figures are the number of records offering that capability, at most the record count |
| `Dashboard.Ids` | src/components/PhoneNumbersDashboard.tsx:84 | `phoneNumbers.map(p => p.id)` has one id per record, in record order |
| `Dashboard.HeaderChecked` | src/components/PhoneNumbersDashboard.tsx:216 | a selection shorter than the table never ticks the header, and with no records the header is ticked exactly when nothing is selected; `HeaderCheckedIffAllSelected` gives its meaning |
| `Dashboard.HeaderCheckedIffAllSelected` | src/components/PhoneNumbersDashboard.tsx:216 | with distinct record ids and a duplicate-free selection of record ids, "selection length equals record count" means exactly "every record is selected" |
| `Dashboard.MockIdsDistinct` | src/components/PhoneNumbersDashboard.tsx:23-74 | the five shipped records have distinct ids |
| `Dashboard.MockStatistics` | src/components/PhoneNumbersDashboard.tsx:178-186 | all five shipped records count towards both "SMS Enabled" and "Call Enabled" |
| `Dashboard.PhoneNumbersDashboard.constructor` | src/components/PhoneNumbersDashboard.tsx:77-80 | the page starts with the shipped records, no selection, an empty query and the dialog closed; the always-mounted dialog starts with an empty query, page 1 and no selection |
| `Dashboard.PhoneNumbersDashboard.Filtered` | src/components/PhoneNumbersDashboard.tsx:128-132 | the rows shown are an order-preserving subsequence of the page's records, holding exactly those matching the current query, and all of them for an empty query |
| `Dashboard.PhoneNumbersDashboard.SetSearchQuery` | src/components/PhoneNumbersDashboard.tsx:198 | a search replaces the query and keeps the selection |
| `Dashboard.PhoneNumbersDashboard.HandleSelectAll` | src/components/PhoneNumbersDashboard.tsx:82-88 | ticking selects exactly the ids of all records in order, whatever the search; clearing empties the selection; afterwards the header shows the new state; the selection is well formed again even if it held a duplicate before |
| `Dashboard.PhoneNumbersDashboard.HandleSelectNumber` | src/components/PhoneNumbersDashboard.tsx:90-96 | ticking appends the id at the end, so the list grows by one even for an id already present; clearing removes every occurrence of the id; when called as the table calls it, the selection stays duplicate-free and within the record ids |
| `Dashboard.PhoneNumbersDashboard.OpenBuyModal` | src/components/PhoneNumbersDashboard.tsx:148 | "Add Number" opens the dialog |
| `Dashboard.PhoneNumbersDashboard.SetShowBuyModal` | src/components/PhoneNumbersDashboard.tsx:347-350 | the dialog's `onOpenChange` sets the page's open flag |
| `Dashboard.PhoneNumbersDashboard.PurchaseInBuyModal` | src/components/BuyPhoneNumberModal.tsx:79-81 | a purchase with numbers selected clears the dialog's selection and closes the dialog; with none selected the dialog stays as it was; the dialog's selection stays duplicate-free |

## Left out

- Rendering: JSX, CSS classes, icons, and the Dialog, Select, Checkbox and Card widgets. The React hook runtime is replaced by synchronous field updates.
- `toast` notifications and `console.log`. They are output only and change no state.
- The offers' `price` field and its `toFixed(2)` display. It is a floating-point value used only for display.
- The dialog's `selectedProvider` and `selectedCountry`. They are set but never read by the list logic.
- `handleCall`, `handleSMS` and `handleMMS`. They only raise a toast.
- The disabled state of the "previous", "next" and "Save" buttons. A disabled "previous" sits on page 1, where `PrevPage` gives 1 anyway. A disabled "next" sits on the last page, where `NextPage` gives the same page. A disabled "Save" means an empty selection, where `HandlePurchase` changes nothing. The handlers therefore cover what the guards prevent.
- The "Cancel" button and the dialog's own close gesture. Both call `onOpenChange(false)`, which is `SetShowBuyModal(false)`.
- The selected-card highlight and the "Selected: N" label. Each is a plain membership test or length of the selection.
- The table's static pagination buttons and the constant "Pending" figure. Neither has behaviour.
- `src/pages/Index.tsx`, `src/pages/AgentsPage.tsx` and `src/components/AppSidebar.tsx`. They are static markup and navigation. Route matching happens inside react-router, which is not part of this model.
- Text.LowerChar: maps ASCII `A`-`Z` only and keeps every other character, whereas JavaScript's `toLowerCase` also lowers non-ASCII letters such as `Ä`.
- Text.Lower: lowercases ASCII `A`-`Z` only. JavaScript's `toLowerCase` applies full Unicode case mapping, which is not modelled.
- The dialog's `open` prop. In the page the dialog's content is unmounted while `showBuyModal` is false, so its handlers fire only while it is open; the model lets `BuyPhoneNumberModal`'s methods and `PurchaseInBuyModal` run whatever the flag holds.
