# Public report feed: state model

This project models the state logic of the public feed page (`Home`) of a whistleblower-report
site. It is written in Dafny. The page shows one page of reports at a time. Visitors can like a
report and comment on it under an email-like pseudo-identity. The identity is asked for once and
then kept in browser storage.

The whole page state is one immutable record, `FeedState`. Its fields are the report list, the
loading flag, the error text, the pagination record, the identity, the report whose comment box is
open, and the draft text. Each event handler is a pure function. Typing and cancelling only return the next state; every other
handler returns a `Step` made of:

- the next state;
- the request sent to the backend, if any (`None` means no network call was made);
- the identity written to browser storage, if any;
- the alert raised, if any.

Everything that comes from outside is a parameter:

- what the server answers: `Success(value)`, or `Failure(message)` with an optional message;
- what the user types into a prompt (`None` when the prompt is dismissed);
- the text typed into the comment box.

Modules, leaves first:

- `Wrappers`: `Option` and the server `Response`.
- `FeedTypes`: reports, pagination, the state record and the mount state.
- `JsText`: JavaScript's `trim`, with its whitespace set, and lower-casing.
- `Identity`: the identity check that opens a like or a comment.
- `ReportUpdates`: replace-by-id. Each field a server response returns is copied onto every report
  with that identifier.
- `Feed`: the handlers. These are page load, like, opening the comment box, typing, posting and
  cancelling.
- `PageControls`: the pagination bar.
- `ReportView`: the relative-age label and the category badge.
- `Session`: runs of events, and the invariants and scenarios that hold across them.

Behaviour kept exactly as the code has it, including where it departs from what the feature evidently intends:

- The like request carries the identity from BEFORE the event (`Feed.Like`). On the very first
  like, the typed address is stored, but the request still goes out with the empty string
  (`Session.FirstLikeSendsPriorIdentity`).
- Opening the comment box on another report keeps the draft text (`Session.DraftTextCarriesOver`).
  A strict single-draft design would discard the old draft.
- Page navigation has no range check of its own. A disabled Previous/Next button does nothing. An
  enabled one loads `page - 1` or `page + 1`. These stay within `[1, pages]` only because the
  server's `has_prev`/`has_next` flags agree with the page (`PageControls.EnabledControlsStayInRange`).
- The default pagination record `{ page: 1, pages: 1, total: 0 }` has no `has_prev`/`has_next`.
  Both are modelled as false, which is how the missing values read.
- The identity read from storage at mount is never checked. A stored value without `@` is used
  as the identity as it is, with no prompt.
- The display name falls back to "Anonymous" only when the prompt returns nothing or the empty
  string. A name made only of blanks is kept.
- The error box and the pagination bar test `error` for truthiness. An empty error string would
  not count as an error, but no state reached from mount holds one (`Session.RunPreservesErrorInv`).

## Model

| member | source | states |
|---|---|---|
| `FeedTypes.Init` | frontend/src/pages/Home.jsx:7-13 | the mount state: loading, no error, no reports, the default pagination, the identity read from storage (empty when absent), no open comment box and an empty draft |
| `Session.InitErrorInv` | frontend/src/pages/Home.jsx:9 | the mount state shows no error, whatever storage holds |
| `Session.InitInv` | frontend/src/pages/Home.jsx:7-13 | the mount state (loading, no error, empty list, default pagination, identity read from storage, no open draft) satisfies the page invariant whenever storage holds nothing or an address the prompt would accept |
| `Feed.LoadErrorText` | frontend/src/pages/Home.jsx:28 | a failed load always shows a non-empty error: the error's own message, or "Failed to load reports" when the message is missing or empty |
| `Feed.Load` | frontend/src/pages/Home.jsx:19-32 | sends `page` with page size 20 and always ends with loading off. On success it replaces the list and the pagination with the response (or `[]` and the default record) and clears the error. On failure it keeps the last list and pagination and shows the error's message, or "Failed to load reports" when it has none. The identity and the draft are never touched |
| `Session.RetryAfterFailure` | frontend/src/pages/Home.jsx:19-32 | a failed load keeps the last good page. Loading the same page again and succeeding yields exactly the state a first-time success would have given |
| `Session.LoadSuccessIsWholesale` | frontend/src/pages/Home.jsx:24-25 | after a successful load, nothing of the previous list, pagination, error or loading flag survives. The result depends only on the response, the identity and the draft |
| `Identity.CheckIdentity` | frontend/src/pages/Home.jsx:35-43 | with a known identity there is no prompt and the identity is kept. With none, the action goes ahead iff the prompt's answer is non-empty and contains `@`, and that answer becomes the identity |
| `Identity.CheckSettles` | frontend/src/pages/Home.jsx:60-68 | once the check lets an action through, every later check keeps that identity and shows no prompt, whatever is typed |
| `ReportUpdates.ApplyPatch` | frontend/src/pages/Home.jsx:50 | the patched report carries exactly the server's values for the patch's fields and equals the original on every other field |
| `ReportUpdates.UpdateById` | frontend/src/pages/Home.jsx:48-52 | the list keeps its length and order. Every report with the given identifier gets the server's fields and nothing else changes on it. Every other report is identical |
| `ReportUpdates.UpdateAbsentIsIdentity` | frontend/src/pages/Home.jsx:48-52 | a response for an identifier that is not on the page leaves the list identical |
| `ReportUpdates.UpdateKeepsIds` | frontend/src/pages/Home.jsx:84-88 | an update never changes which report sits at which position |
| `ReportUpdates.LaterResponseWins` | frontend/src/pages/Home.jsx:48-52 | of two responses of the same kind for one report, the later replaces the earlier outright. Counts are never accumulated locally |
| `ReportUpdates.UpdatesCommute` | frontend/src/pages/Home.jsx:84-88 | updates for different reports, or a like and a comment update, give the same list in either order |
| `Feed.Like` | frontend/src/pages/Home.jsx:34-57 | a refused identity halts with an invalid-email notice and no change. Otherwise the identity is kept (stored if just typed) and the like is sent with the identity from before the event. On success only `like_count` and `liked` of the matching report take the server's values. On failure the list is kept and a failure notice is raised. Loading, error, pagination and draft never change |
| `Feed.OpenDraft` | frontend/src/pages/Home.jsx:59-71 | a refused identity halts with no change and no draft opened. Otherwise the box opens on the given report with the draft text untouched, and nothing but the identity and the open report changes. No request is ever sent |
| `Feed.EditDraft` | frontend/src/pages/Home.jsx:463-464 | typing replaces the draft text and changes nothing else |
| `Feed.CancelDraft` | frontend/src/pages/Home.jsx:494-497 | cancel closes the box and empties the draft, and changes nothing else |
| `Feed.DisplayName` | frontend/src/pages/Home.jsx:80-81 | the posted name is the prompt's answer when that is non-empty, and "Anonymous" exactly when the prompt is dismissed or left empty; a name of blanks only is kept |
| `Feed.SubmitComment` | frontend/src/pages/Home.jsx:73-97 | a draft of whitespace only is refused with no request and no change. Otherwise the comment is sent with the stored identity, the display name and the draft. On success only `comment_count` of the matching report changes, the box closes and the draft empties. On failure the whole state, draft included, is kept |
| `JsText.IsJsWhitespace` | frontend/src/pages/Home.jsx:74 | the characters `trim` strips; among ASCII characters they are exactly space, tab, line feed, vertical tab, form feed and carriage return |
| `JsText.LeadingWhitespace` | frontend/src/pages/Home.jsx:74 | counts the whitespace run at the start: every character it covers is whitespace and the next one is not |
| `JsText.TrailingWhitespace` | frontend/src/pages/Home.jsx:74 | counts the whitespace run at the end: every character it covers is whitespace and the one before it is not |
| `JsText.Trim` | frontend/src/pages/Home.jsx:74 | the result is the part of the input after its leading whitespace, followed in the input by whitespace only, and it neither starts nor ends with whitespace |
| `JsText.TrimEmptyIffBlank` | frontend/src/pages/Home.jsx:74 | the trimmed draft is empty iff every character of it is whitespace |
| `JsText.ToLower` | frontend/src/pages/Home.jsx:136 | lower-casing keeps the length and maps each character independently |
| `JsText.ToLowerIdempotent` | frontend/src/pages/Home.jsx:136 | lower-cased text has no upper-case ASCII letter left, and lower-casing it again changes nothing |
| `PageControls.PageButtons` | frontend/src/pages/Home.jsx:545 | there are `min(pages, 10)` buttons (none for a non-positive count), and button `i` shows page `i + 1` |
| `PageControls.ButtonsCoverFirstPages` | frontend/src/pages/Home.jsx:545-564 | the buttons are exactly pages `1..min(pages, 10)`, each one a page in `[1, pages]`. The overflow marker shows iff some page has no button, i.e. iff `pages > 10` |
| `PageControls.ControlsVisible` | frontend/src/pages/Home.jsx:519 | the bar is hidden while loading, while a non-empty error is shown, and when there is at most one page. It is shown when nothing is loading, there are at least two pages, and the error is absent or the empty string (which is falsy) |
| `PageControls.PrevControl` | frontend/src/pages/Home.jsx:528-530 | Previous leads to `page - 1` and is clickable iff the server's `has_prev` is set |
| `PageControls.NextControl` | frontend/src/pages/Home.jsx:566-568 | Next leads to `page + 1` and is clickable iff the server's `has_next` is set |
| `PageControls.Controls` | frontend/src/pages/Home.jsx:528-568 | the bar is Previous, then the clickable button for page `i` at position `i` for each page button, then Next |
| `PageControls.EnabledControlsStayInRange` | frontend/src/pages/Home.jsx:528-568 | when the server's pagination is consistent, every clickable control leads to a page in `[1, pages]` |
| `PageControls.Click` | frontend/src/pages/Home.jsx:529-567 | a disabled control does nothing. An enabled one is exactly `loadReports(target)`: it fetches its target page and ends with loading off |
| `PageControls.ClickLandsOnTarget` | frontend/src/pages/Home.jsx:529 | a successful load through a control, whose response reports the target page, shows that page with no error |
| `ReportView.FormatAge` | frontend/src/pages/Home.jsx:113-124 | "just now" iff the age is under a minute (future dates included). Minutes iff under an hour, hours iff under a day, days iff under a week, otherwise the calendar date. Each count n satisfies n units <= age < n+1 units |
| `ReportView.FormatAgeMonotone` | frontend/src/pages/Home.jsx:117-124 | an older report never gets a fresher label. Within one unit, the count never decreases with age |
| `ReportView.Decimal` | frontend/src/pages/Home.jsx:122 | the printed count is a non-empty string of decimal digits with no leading zero, zero included |
| `ReportView.DecimalRoundTrip` | frontend/src/pages/Home.jsx:122 | reading the printed digits back gives the count |
| `ReportView.AgeText` | frontend/src/pages/Home.jsx:121-125 | "just now" for the youngest bucket, the locale date for the oldest, and otherwise the count's digits, without a leading zero and reading back as the count, followed by `m`, `h` or `d` |
| `ReportView.AgeTextReadsBack` | frontend/src/pages/Home.jsx:121-124 | the text of a minutes, hours or days label is the count's digits, with no leading zero, followed by `m`, `h` or `d` matching the age range |
| `ReportView.CategoryBadge` | frontend/src/pages/Home.jsx:128-138 | the badge is always one of the five table entries. A known lower-cased category gets its own entry. The "other" badge is used iff the category is missing or its lower-case form is none of corruption, fraud, harassment, safety |
| `ReportView.CategoryBadgeIgnoresCase` | frontend/src/pages/Home.jsx:136 | the badge of a category equals the badge of its lower-cased form |
| `Session.ApplyPreservesErrorInv` | frontend/src/pages/Home.jsx:19-97 | no handler leaves an empty error text: a failed load always shows a non-empty message, and every other handler leaves the error alone |
| `Session.RunPreservesErrorInv` | frontend/src/pages/Home.jsx:19-97 | after mount and any sequence of events, the error shown is never the empty string |
| `Session.ApplyPreservesInv` | frontend/src/pages/Home.jsx:19-97 | every handler keeps the page invariant: no empty error text, an identity that is empty or contains `@`, and an open comment box only with an identity. Storage is written only after an identity prompt, and only with the identity the state now holds |
| `Session.LoadPreservesInv` | frontend/src/pages/Home.jsx:19-32 | a page load keeps the page invariant; in particular it never leaves an empty error text |
| `Session.LikePreservesInv` | frontend/src/pages/Home.jsx:34-57 | a like keeps the page invariant, and writes storage only when there was no identity, with the identity the state now holds |
| `Session.OpenDraftPreservesInv` | frontend/src/pages/Home.jsx:59-71 | opening the comment box keeps the page invariant: the box is open only with an identity, and storage is written only when there was none |
| `Session.RunPreservesInv` | frontend/src/pages/Home.jsx:19-97 | from a state meeting the page invariant (as a mount does whose stored identity is empty or contains `@`), the invariant holds after any sequence of events |
| `Session.PostedCommentCarriesIdentity` | frontend/src/pages/Home.jsx:81 | from a state meeting the page invariant (reached from a mount whose stored identity is empty or contains `@`), posting from an open comment box sends the stored identity, which contains `@` |
| `Session.IdentityIsFinal` | frontend/src/pages/Home.jsx:35-43 | once an identity is known, no later event changes it, shows the identity prompt or writes storage |
| `Session.ApplyKeepsIdentity` | frontend/src/pages/Home.jsx:35 | with an identity known, a single event keeps it, shows no identity prompt and writes nothing to storage |
| `Session.ApplyStoresOnlyWhenSet` | frontend/src/pages/Home.jsx:41-42 | without an identity, an event writes storage exactly when it leaves a non-empty identity behind |
| `Session.IdentityStoredAtMostOnce` | frontend/src/pages/Home.jsx:41-42 | along any run, the identity is written to storage at most once, and never if one was known at the start |
| `Session.SecondLikeResponseWins` | frontend/src/pages/Home.jsx:35-52 | two successful likes on one report, the first of which may prompt and be accepted, leave it with the second response's `like_count` and `liked` |
| `Session.FirstLikeSendsPriorIdentity` | frontend/src/pages/Home.jsx:41-46 | the first like stores the typed address but sends the empty identity. The next like shows no prompt and sends the stored address |
| `Session.DraftTextCarriesOver` | frontend/src/pages/Home.jsx:70 | opening the box on a second report keeps the text typed under the first, and a post from the second sends that text |
| `Session.FirstOfThreePages` | frontend/src/pages/Home.jsx:519-568 | after loading page 1 of 3, the bar shows with buttons 1, 2, 3, no overflow marker, Previous disabled and Next leading to page 2 |
| `Session.ControlsVisibleUnderInv` | frontend/src/pages/Home.jsx:519 | in every state reached from mount (no empty error text), the bar shows iff nothing is loading, there is no error and there is more than one page |

## Left out

- The rendered markup, inline styles and hover handlers (frontend/src/pages/Home.jsx:139-598): presentation only. The view-level expressions the page's logic depends on are modelled.
- The backend calls `fetchPublicReports`, `likeReport` and `addReportComment`: their bodies are not part of this model. Each call is a request value plus a `Response` parameter.
- `prompt`, `alert`, `console` and `localStorage`: browser I/O. Prompt answers are parameters, alerts are `Notice` tags, console output is dropped, and a storage write is the `persisted` part of a step.
- Sharing and the clipboard fallback (frontend/src/pages/Home.jsx:99-111): a platform capability with no state of its own.
- `toLocaleDateString` (frontend/src/pages/Home.jsx:125) and invalid dates: locale and date-library behaviour. The date branch yields an opaque `localeDate` string, and the age difference is an integer number of milliseconds.
- Overlapping asynchronous calls: concurrency. Handlers are modelled as atomic steps, so the last-to-complete-wins race between loads is not modelled. Nor is a like or comment update that maps over a list captured before a reload finished (frontend/src/pages/Home.jsx:48, :84). A sequential model cannot reach those interleavings. The code also has no policy for dropping such stale updates.
- The "Try Again" button passes the click event as the page number (frontend/src/pages/Home.jsx:217): a JavaScript quirk outside the state logic.
- The `|| 0` fallback used when counts are displayed (frontend/src/pages/Home.jsx:384, :410): counts are modelled as integers that are always present.
- `JsText.ToLower`: folds ASCII letters only. Full Unicode lower-casing is not modelled. For the badge lookup this is exact: the only non-ASCII character that lower-cases into ASCII is the Kelvin sign, which becomes `k`, and no category key contains `k`.
- `ReportView.CategoryBadge`: the style table is a five-entry map. Inherited object keys such as `constructor`, which the source's plain-object lookup would also find, are not modelled.
- `Feed.Like`: a like response is assumed to carry both `like_count` and `liked`. A missing field would copy `undefined` onto the report; that case is not modelled.
- `Feed.SubmitComment`: a comment response is assumed to carry `comment_count`. A missing one would copy `undefined` onto the report; that case is not modelled.
