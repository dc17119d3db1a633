# Scratch-card LINE bot frontend: a Dafny model

The system is the web frontend of a scratch-card game played through a LINE
official account. Players open a card, scratch a canvas and win one of the
card's prizes. Administrators manage cards and their prizes, browse users
and results, and broadcast messages. This project models the logic of that
frontend and proves what it guarantees:

- the client-side prize draw (`lib/prize-selection.ts`): eligibility by
  remaining stock, the weight sum, the cumulative walk with its fallback,
  the three failure tags, and the stock report;
- the records of `lib/types.ts` and the probability total that the card
  list, both card dialogs and the draw compute;
- the users page: the pagination window and bar, the range caption, the
  admin/active counters and the `/users` query;
- the create and edit card dialogs: adding a prize with its validation
  (including the edit dialog's "unlimited" box, stored as a `null`
  quantity), removing a prize by index, the submit guards and request
  bodies;
- the card list and the results page: deletion by id, the probability
  warning, the filter query and its handlers;
- the scratch component: the transparent-pixel count over the RGBA buffer,
  the 60% rule and the once-per-card report latch;
- the landing page's login-callback redirect;
- the broadcast form's validation and handler;
- `lib/api.ts`: URL joining, header and method merging, and the error text.

Pure rules are functions with lemmas. The state each component's handlers
update is a class whose handlers are methods with `modifies this` (for the
users page, the search boxes and the page and size), and a loop in the source is
a method with a loop proved against a specification function. The outcome
of a network request, a `confirm` dialog or `Math.random()` is a parameter
(`requestOk`, `confirmed`, `rand`). Probabilities are exact `real`s.

The edit dialog's 無限數量 ("unlimited") box stores a `null` quantity
(components/edit-scratch-card-dialog.tsx:77, 217-227). The draw computes
`prize.quantity - usedCount`, and JavaScript turns `null` into 0 there, so
such a prize is never eligible and reports 0 remaining. The model keeps that
behaviour (`Prize.quantity` is an `Option<int>` read as 0 when absent).
`EditDialog.UnlimitedPrizeIsNeverWon` states the consequence.

Files: `wrappers.dfy` (Option), `seqs.dfy` (filter and index removal),
`text.dfy` (trim, decimal digits), `query.dfy` (URLSearchParams), `types.dfy`,
`prize_selection.dfy`, `prize_form.dfy`, `users_page.dfy`, `edit_dialog.dfy`,
`create_dialog.dfy`, `scratch_cards_page.dfy`, `results_page.dfy`,
`scratch_card.dfy`, `login_redirect.dfy`, `broadcast.dfy`, `api.dfy`.

## Model

| member | source | states |
|---|---|---|
| PrizeSelection.SelectPrizeForUser | lib/prize-selection.ts:19-85 | The draw as written: the no-prizes check, the in-stock filter, the weight check, then the cumulative walk. Its result equals the function `SelectPrize`. |
| PrizeSelection.WalkCumulativeWeight | lib/prize-selection.ts:67-85 | The accumulating loop returns the prize at `DrawIndex`: the first prize whose cumulative weight reaches the draw value, else the last eligible prize. |
| PrizeSelection.SelectPrizeOutcomes | lib/prize-selection.ts:24-65 | `no_prizes` exactly for an empty card, or for stock left with weight sum <= 0 (each with its own message). `out_of_stock` exactly when the card has prizes but none in stock. Success exactly when stock and positive weight remain. |
| PrizeSelection.SelectPrizeShape | lib/prize-selection.ts:8-12 | `success` holds iff a prize is set and iff no error is set; the draw never yields `api_error`. |
| PrizeSelection.SelectPrizeWinsStockedPrize | lib/prize-selection.ts:37-85 | A won prize is one of the card's prizes with remaining stock; its quantity is non-null and exceeds its result count. |
| PrizeSelection.SelectPrizeWin | lib/prize-selection.ts:67-85 | With stock and positive weight, the outcome is the eligible prize the walk stops at for `rand * totalWeight`. |
| PrizeSelection.SelectPrizeCumulativeRule | lib/prize-selection.ts:68-85 | For `rand` in [0, 1) the winner is the first eligible prize whose cumulative weight reaches the draw value, so the last-prize fallback is never reached. |
| PrizeSelection.SelectPrizeZeroDraw | lib/prize-selection.ts:71-78 | A draw of 0 wins the first eligible prize even when its probability is 0, because the test is `<=`. |
| PrizeSelection.SelectPrizeIgnoresDepleted | lib/prize-selection.ts:37-55 | Removing the depleted prizes from the card gives the same outcome for every draw. |
| PrizeSelection.DrawIndexInterval | lib/prize-selection.ts:68-79 | With non-negative weights and a draw value in [0, total], prize `k` is chosen exactly on the interval between the cumulative weights before and through `k`, whose width is `k`'s probability. |
| PrizeSelection.DrawIndexFirstCovering | lib/prize-selection.ts:71-79 | If `k` is the first prize whose cumulative weight reaches the draw value, the walk stops at `k`. |
| PrizeSelection.DrawIndexFallback | lib/prize-selection.ts:81-85 | If no cumulative weight reaches the draw value, the walk ends on the last prize. |
| PrizeSelection.DrawIndexCovers | lib/prize-selection.ts:71-85 | If some cumulative weight reaches the draw value, the stop position reaches it and no earlier one does. |
| PrizeSelection.PrizeStock | lib/prize-selection.ts:103-114 | One entry per prize, in card order, carrying that prize, with `remaining` never negative. |
| PrizeSelection.PrizeStockAgreesWithDraw | lib/prize-selection.ts:103-114 | `used` is the result count. `remaining > 0` iff the draw counts the prize as eligible, and then equals quantity minus used. A `null` quantity shows 0. All entries 0 iff the draw reports `out_of_stock`. |
| PrizeSelection.SingleUnitPrizeRunsOut | lib/prize-selection.ts:37-52 | A quantity-1 prize is won while it has no result and is out of stock after one. |
| PrizeSelection.NullQuantityPrizeIsOutOfStock | lib/prize-selection.ts:39 | A prize with a `null` quantity is never eligible, whatever its results or probability. |
| PrizeSelection.DepletedWeightIsRedistributed | lib/prize-selection.ts:37-79 | With A (0.5, depleted), B (0.3) and C (0.2), B wins for `rand <= 0.6` and C otherwise. |
| Types.TotalProbabilityAppend | app/admin/scratch-cards/page.tsx:57-59 | The probability total of a concatenation is the sum of the totals. |
| Types.TotalProbabilityRemoveIndex | components/edit-scratch-card-dialog.tsx:85-91 | Removing the prize at an index lowers the total by exactly that prize's probability. |
| Types.TotalProbabilityBounds | components/create-scratch-card-dialog.tsx:50-52 | With every probability in [0, 1], the total lies in [0, number of prizes]. |
| Types.TotalProbabilitySplit | lib/prize-selection.ts:55 | For any test, the total of the prizes kept plus the total of the prizes dropped is the whole total. |
| Seqs.RemoveIndex | components/edit-scratch-card-dialog.tsx:85-87 | `filter((_, i) => i !== index)`: only position `index` is removed and the order is kept; an index outside the list removes nothing. |
| Text.Trim | app/admin/results/page.tsx:28-39 | The result is no longer than the input, and is empty iff the input is all whitespace. Otherwise neither end is whitespace. |
| Text.TrimIsSlice | app/admin/results/page.tsx:28-39 | `trim()` returns a contiguous slice of the input: everything before it and everything after it is whitespace. |
| Text.IntToString | app/admin/users/page.tsx:40-41 | `toString()` of an integer is non-empty and starts with '-' exactly for negatives. The rest is decimal digits whose value is the integer's magnitude. |
| Query.Get | app/page.tsx:15-18 | `searchParams.get` finds a value iff some pair has that name. |
| Query.GetAppend | app/admin/users/page.tsx:37-41 | After `append`, reading the name gives its first value, or the appended one if it was absent. Other names are unchanged. |
| Query.GetSet | app/page.tsx:28-33 | After `set`, the name reads as the new value and other names are unchanged. |
| UsersPage.PageWindow | app/admin/users/page.tsx:189-195 | The window lies within 1..totalPages. When there are pages, it holds `min(5, totalPages)` pages. It contains the current page when that page is real. |
| UsersPage.RenderPaginationItems | app/admin/users/page.tsx:187-257 | The pushes build exactly `PaginationItems`: optional first-page link and ellipsis, the window's links, optional ellipsis and last-page link. |
| UsersPage.PushPageLinks | app/admin/users/page.tsx:219-232 | The loop appends one link per page of the window, in order. |
| UsersPage.PageLinksAt | app/admin/users/page.tsx:219-232 | The window has `max(0, last-first+1)` links. The `i`-th links page `first+i` and is active iff that is the current page. |
| UsersPage.PaginationEnds | app/admin/users/page.tsx:197-254 | With at least one page, the bar starts with a link to page 1 and ends with a link to the last page; otherwise it is empty. |
| UsersPage.PaginationEllipses | app/admin/users/page.tsx:197-254 | The leading ellipsis appears iff the window starts after page 2. The trailing one appears iff the window ends before the second-to-last page. |
| UsersPage.PaginationLinksOrdered | app/admin/users/page.tsx:197-254 | Every link is to a page in 1..totalPages and is active iff it is the current page. Linked page numbers strictly increase, so none repeats. |
| UsersPage.PaginationLinkPage | app/admin/users/page.tsx:197-254 | The link at a position is page 1 before the window, the window's pages in order, and the last page after it. |
| UsersPage.PaginationEllipsisMarksGap | app/admin/users/page.tsx:210-240 | Every ellipsis sits between two links whose pages are at least 2 apart. |
| UsersPage.PaginationAdjacentLinksConsecutive | app/admin/users/page.tsx:197-254 | Two adjacent links are consecutive pages. |
| UsersPage.RangeCaptionCoversPage | app/admin/users/page.tsx:356 | On a page holding users, the caption range is non-empty, lies within 1..total and has as many entries as the page shows. Consecutive pages' ranges follow on. |
| UsersPage.RangeCaptionEmptyTable | app/admin/users/page.tsx:356 | With no users, the first page's caption reads "1-0", and on any page the first bound exceeds the last. |
| UsersPage.AdminCount | app/admin/users/page.tsx:162 | At most the number of users. It is 0 iff no user is an admin, and all iff every user is. |
| UsersPage.AdminCountAdds | app/admin/users/page.tsx:162 | The counter adds up over any split of the list and is 1 for a single admin and 0 for a single non-admin, so it is the number of admins. |
| UsersPage.ActiveCount | app/admin/users/page.tsx:163 | At most the number of users. It is 0 iff no user has results, and all iff every user has some. |
| UsersPage.ActiveCountAdds | app/admin/users/page.tsx:163 | The counter adds up over any split of the list and is 1 for a single user with results, 0 otherwise, so it is the number of users with results. |
| UsersPage.FetchUsersParams | app/admin/users/page.tsx:34-41 | The appends build `UsersQuery`: optional `user_id` and `display_name`, then `page` and `page_size`. |
| UsersPage.UsersQueryParams | app/admin/users/page.tsx:37-41 | Each optional filter reads back iff it was given non-empty. `page` and `page_size` read back as their decimal values and close the query in that order. |
| UsersPage.GetOptionalParam | app/admin/users/page.tsx:38-39 | An optional parameter is present iff its value is given and non-empty. |
| UsersPage.SearchTerm | app/admin/users/page.tsx:67-68 | `trim() \|\| undefined`: present iff the box is not blank, and then its trimmed, non-empty text. |
| UsersPage.RefetchParams | app/admin/users/page.tsx:64-72 | The query of `handleSearch` (page 1), `handlePageChange` and `handlePageSizeChange` (lines 165-185). Each box is sent trimmed iff not blank. The page and size are always sent, last and in that order. |
| UsersPage.UsersPageState.HandleSearch | app/admin/users/page.tsx:64-72 | Back to page 1, the boxes and size kept, and the query of the trimmed non-blank boxes for page 1 at the current size. |
| UsersPage.UsersPageState.HandleClearSearch | app/admin/users/page.tsx:74-79 | Both boxes emptied, back to page 1, and the unfiltered query for page 1 at the current size. |
| UsersPage.UsersPageState.HandlePageChange | app/admin/users/page.tsx:165-173 | The current page becomes `page`, and the query asks for it with the trimmed non-blank boxes at the current size. |
| UsersPage.UsersPageState.HandlePageSizeChange | app/admin/users/page.tsx:175-185 | The size becomes the new one, back to page 1, and the query asks for page 1 at that size. |
| PrizeForm.ProbabilityInput | components/create-scratch-card-dialog.tsx:140-145 | A value in [0, 1] replaces the draft's probability; any other value leaves the draft unchanged. Nothing but the probability changes. |
| EditDialog.AddedPrize | components/edit-scratch-card-dialog.tsx:77-79 | The added prize has a `null` quantity when unlimited is ticked, and is otherwise the draft. It differs from the draft at most in quantity. |
| EditDialog.PrizesAfterAdd | components/edit-scratch-card-dialog.tsx:76-83 | Exactly one prize is appended iff the text is non-empty, (unlimited or quantity > 0) and the probability is in [0, 1]. The earlier prizes are untouched. |
| EditDialog.AddPrizeTotal | components/edit-scratch-card-dialog.tsx:89-91 | An accepted add raises the total by exactly the draft's probability. Adding keeps every probability in [0, 1]. |
| EditDialog.UnlimitedPrizeIsNeverWon | components/edit-scratch-card-dialog.tsx:77 | A prize added as unlimited gets a `null` quantity, is never in stock and can never be won. |
| EditDialog.TimeField | components/edit-scratch-card-dialog.tsx:103-113 | An empty time input is sent as `null`, a filled one as its value; the field is never omitted. |
| EditDialog.SubmitRequest | components/edit-scratch-card-dialog.tsx:93-118 | No request iff the name is empty, there are no prizes or no card. Otherwise the card's id, the form's name and prizes, and each time as `TimeField` of its box: `null` when empty, else the box's value. |
| EditDialog.EditScratchCardDialog.LoadCard | components/edit-scratch-card-dialog.tsx:46-74 | A card fills name, prizes and the two times, a missing time becoming empty. No card clears the form. The draft is untouched. |
| EditDialog.EditScratchCardDialog.AddPrize | components/edit-scratch-card-dialog.tsx:76-83 | The prize list becomes `PrizesAfterAdd`. On acceptance the draft resets and unlimited is cleared; otherwise nothing changes. |
| EditDialog.EditScratchCardDialog.RemovePrize | components/edit-scratch-card-dialog.tsx:85-87 | Only the prize at the index is removed, and the total drops by its probability. |
| EditDialog.EditScratchCardDialog.SetUnlimited | components/edit-scratch-card-dialog.tsx:218-223 | Ticking sets the flag and the draft quantity to 0; unticking only clears the flag. |
| EditDialog.EditScratchCardDialog.SetDraftProbability | components/edit-scratch-card-dialog.tsx:242-246 | Only a probability in [0, 1] is taken into the draft. |
| EditDialog.EditScratchCardDialog.HandleSubmit | components/edit-scratch-card-dialog.tsx:93-136 | Sends `SubmitRequest` of the form and closes iff a request was made and succeeded. Loading ends. The form is kept. |
| CreateDialog.PrizesAfterAdd | components/create-scratch-card-dialog.tsx:39-44 | The draft is appended as it is, exactly when its text is non-empty, its quantity is > 0 and its probability is in [0, 1]. |
| CreateDialog.AddPrizeKeepsAccepted | components/create-scratch-card-dialog.tsx:39-52 | Adding keeps every listed prize valid, and raises the total exactly by an accepted draft's probability. |
| CreateDialog.RemovePrizeKeepsAccepted | components/create-scratch-card-dialog.tsx:46-48 | Removing any index keeps every listed prize valid. |
| CreateDialog.AcceptedTotalBounds | components/create-scratch-card-dialog.tsx:50-52 | In this dialog the total lies in [0, number of prizes] and every prize has quantity >= 1. |
| CreateDialog.SubmitRequest | components/create-scratch-card-dialog.tsx:54-65 | No request iff the name is empty or there are no prizes; otherwise a body of the name and prizes only. |
| CreateDialog.CreateScratchCardDialog.AddPrize | components/create-scratch-card-dialog.tsx:39-44 | The list becomes `PrizesAfterAdd`, and the draft resets exactly when it is accepted. Every listed prize stays valid. |
| CreateDialog.CreateScratchCardDialog.RemovePrize | components/create-scratch-card-dialog.tsx:46-48 | Only the prize at the index is removed, and the rest stay valid. |
| CreateDialog.CreateScratchCardDialog.SetDraftProbability | components/create-scratch-card-dialog.tsx:140-145 | Only a probability in [0, 1] is taken into the draft. |
| CreateDialog.CreateScratchCardDialog.HandleSubmit | components/create-scratch-card-dialog.tsx:54-76 | Sends `SubmitRequest`. The dialog closes iff a request was made and succeeded. Success clears name and prizes, failure keeps them, and loading ends. |
| ScratchCardsPage.WithoutCard | app/admin/scratch-cards/page.tsx:51 | Keeps exactly the cards whose id differs, and nothing else. |
| ScratchCardsPage.WithoutCardRemovesOne | app/admin/scratch-cards/page.tsx:51 | With unique ids, deleting a listed card removes only its position and keeps the order. Deleting an unknown id changes nothing. |
| ScratchCardsPage.NoWarningMeansShownOdds | app/admin/scratch-cards/page.tsx:197-200 | With no warning (total exactly 1) and every prize in stock, `rand` wins prize `k` iff it falls in `k`'s slice of [0, 1], whose width is `k`'s probability. |
| ScratchCardsPage.ScratchCardsPage.DeleteScratchCard | app/admin/scratch-cards/page.tsx:44-55 | After confirmation and a successful request the list becomes `WithoutCard`; otherwise it is unchanged. |
| ScratchCardsPage.ScratchCardsPage.HandleEditClick | app/admin/scratch-cards/page.tsx:61-64 | Selects the card and opens the edit dialog. |
| ResultsPage.Filters.With | app/admin/results/page.tsx:55-57 | Sets one filter and leaves the other three. |
| ResultsPage.AppendIfNotBlank | app/admin/results/page.tsx:28-30 | Appends the trimmed value iff it is not blank. |
| ResultsPage.FetchResultsParams | app/admin/results/page.tsx:27-40 | The appends build `ResultsQuery`, in the order user_id, scratch_card_id, scratch_card_name, prize_name. |
| ResultsPage.GetFilterParam | app/admin/results/page.tsx:28-39 | One filter contributes its own name iff it is not blank, with its trimmed value. |
| ResultsPage.ResultsQueryFilters | app/admin/results/page.tsx:27-40 | Each filter reads back from the query iff it is not blank, with its trimmed value; the query has at most four pairs. |
| ResultsPage.ClearedFiltersGiveEmptyQuery | app/admin/results/page.tsx:63-64 | Cleared filters give the empty query. |
| ResultsPage.WithoutResult | app/admin/results/page.tsx:80 | Keeps exactly the results whose id differs. |
| ResultsPage.WithoutResultRemovesOne | app/admin/results/page.tsx:80 | With unique ids, deleting a listed result removes only its position and keeps the order. |
| ResultsPage.ResultsPage.HandleFilterChange | app/admin/results/page.tsx:55-57 | Only the named filter changes. |
| ResultsPage.ResultsPage.HandleClearFilters | app/admin/results/page.tsx:63-68 | All four filters become empty. |
| ResultsPage.ResultsPage.HandleDelete | app/admin/results/page.tsx:70-85 | After confirmation and success the list becomes `WithoutResult`; otherwise it is unchanged. |
| ScratchCardView.AlphaChannel | components/scratch-card.tsx:33-35 | The bytes at indices 3, 7, 11, ...: one alpha byte per whole pixel. |
| ScratchCardView.TransparentCount | components/scratch-card.tsx:31-35 | The count of transparent pixels is at most the number of whole pixels. |
| ScratchCardView.CountTransparent | components/scratch-card.tsx:31-35 | The stride-4 loop counts exactly the zero alpha bytes. |
| ScratchCardView.ScratchedPercentage | components/scratch-card.tsx:37 | Undefined (`NaN`) iff the buffer is empty; otherwise in [0, 100]. |
| ScratchCardView.HidesWhenThreeFifthsScratched | components/scratch-card.tsx:37-47 | On whole pixels the canvas hides iff more than 3 in 5 pixels are transparent. The percentage is 100 iff all are. |
| ScratchCardView.PrizeView | components/scratch-card.tsx:214-235 | The won-prize panel is shown iff there is a result, with its text, and with its image iff it has a non-empty one. |
| ScratchCardView.ScratchCardCanvas.CheckScratchPercentage | components/scratch-card.tsx:23-48 | Records `ScratchedPercentage` of the buffer; the canvas becomes hidden when it exceeds 60 and stays hidden. |
| ScratchCardView.ScratchCardCanvas.Scratch | components/scratch-card.tsx:50-68 | Reports iff the latch was open and counts that report, closes the latch, then measures the canvas. Since `initCard` the card has been reported exactly once. |
| ScratchCardView.ScratchCardCanvas.InitCard | components/scratch-card.tsx:125-129 | A fresh coating: percentage 0, latch open, canvas shown, no report counted. |
| LoginRedirect.TargetPath | app/page.tsx:25-60 | A stored path starting with `/admin` or `/scratch-cards/` is the target; anything else, or none, gives `/admin/scratch-cards`. |
| LoginRedirect.CallbackQueryParams | app/page.tsx:29-33 | The five `set` calls give code, state, liffClientId, liffRedirectUri (or "") and `liff_login=true`, in order. |
| LoginRedirect.RedirectOutcome | app/page.tsx:12-78 | A replace to the card list iff the query lacks a non-empty code, state or liffClientId. Otherwise a full load of an admin or card page carrying the five login parameters. |
| LoginRedirect.HomePage.AssignWithLogin | app/page.tsx:28-39 | Builds the callback URL's query and removes the stored path. |
| LoginRedirect.HomePage.HandleRedirect | app/page.tsx:13-78 | Navigates as `Redirect` decides. Every callback branch removes the stored path; a non-callback visit keeps it. |
| Broadcast.EnabledSendsValidBody | app/admin/broadcast/page.tsx:103 | When the button is enabled, the sent body is non-empty, at most 1000 long and not padded with whitespace. |
| Broadcast.BroadcastPage.HandleSendBroadcast | app/admin/broadcast/page.tsx:18-55 | A blank message gives the error toast, no request and no state change. Otherwise the trimmed message is sent: success clears it, failure keeps it, and loading ends either way. |
| Api.ApiBaseUrl | lib/api.ts:1 | The configured URL when set and non-empty, else the default. |
| Api.ApiUrl | lib/api.ts:59-61 | The base, then '/', then the endpoint without its own leading '/'. |
| Api.ApiUrlSlashOptional | lib/api.ts:28 | `x` and `/x` give the same URL. |
| Api.ApiUrlInjective | lib/api.ts:59-61 | Different paths give different URLs from the same base. |
| Api.MergeHeaders | lib/api.ts:43-46 | The merged headers carry every name of either map; the caller's value wins, and other defaults are kept. |
| Api.BuildRequest | lib/api.ts:24-47 | The URL is the one `getApiUrl` builds. The method is GET unless given, the body passes through, and the headers merge the defaults, plus the token header, with the caller's. |
| Api.RequestHeaders | lib/api.ts:30-46 | `Authorization` is present iff there is a non-empty token or the caller sets it, as `Bearer <token>` unless the caller overrides it. The JSON and ngrok headers stay unless overridden. |
| Api.ErrorMessage | lib/api.ts:52-54 | The text starts with `API request failed: [` and ends with the server message. |
| Api.ErrorMessageReadBack | lib/api.ts:53 | The digits between the brackets spell the status back, followed by "] " and the message. |

## Left out

- `Math.random()`: the draw value `rand` is a parameter. The lemmas about the walk assume it lies in [0, 1).
- The `try`/`catch` paths that yield `api_error` or an empty stock report (lib/prize-selection.ts:87-95, 115-118): they concern JavaScript exceptions on malformed data, which the typed model cannot build. A missing prize list is modelled as an empty one.
- Prize quantities are whole numbers (`int`). lib/types.ts declares `quantity: number` and the create dialog accepts any value above 0, such as 0.5; with such a quantity the draw treats the prize as eligible while fewer results than the quantity exist and the stock report shows a fractional remainder. The model cannot represent those quantities.
- Floating point: probabilities and percentages are exact reals. So the rounding the fallback guards against, `toFixed`, `Math.round` and the float subtlety of `=== 1` are not modelled.
- Network, SDK and browser calls: `fetch`, JSON parsing, toasts, `confirm`, `alert`, the clipboard and `getAccessToken`/`window.liff`. Their outcomes are parameters (`requestOk`, `confirmed`, `accessToken`). Refetches after an action are not modelled, including the delayed refetch in `handleClearFilters`.
- The users page's delete, remove-admin and copy handlers: they only call the API and refetch.
- The users page state that `fetchUsers` sets from the response (the user list, the totals, and the page and size the server echoes back) and the loading flag: they come from the network. The initial fetch is the query of page 1 at size 20.
- `Number(...)`/`parseInt` coercion of text inputs: inputs arrive as numbers, so `NaN` and non-numeric text are not modelled.
- String lengths: `|s|` counts characters, not UTF-16 code units, for the 1000-character broadcast limit.
- The timezone and datetime-local conversion of the edit dialog's times, and the ISO conversion on submit: times are passed through as text.
- The stored path's own query and URL parsing in `new URL(intendedPath, origin)`: the callback query is modelled as built from empty.
- The canvas: drawing, gradients, event wiring, resizing and coordinate scaling. The pixel buffer is given as it is after a stroke. The 500 ms fade is modelled as hiding at once.
- React batching and JSX rendering: handlers are sequential state updates. Plain inputs (card name, times, prize text and image, search boxes, broadcast text) are direct field writes, with no method.
- `BaseModel` timestamps and the global `Window.liff` declaration of lib/types.ts. `ScratchCard` carries the optional start and end times the edit dialog reads, although lib/types.ts does not declare them.
- `app/admin/layout.tsx`, `app/admin/page.tsx`, `components/navigation.tsx` and `app/scratch-cards/[id]/page.tsx` are not part of this model.
- Api.ErrorMessage: an undefined `data.message` (rendered as "undefined") is not modelled, and the status is any natural number.
- Api.BuildRequest: header names are compared exactly, not case-insensitively, and an explicit `method: undefined` in the options is not distinguished from an absent one.
