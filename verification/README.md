# Orbit Finance client: decision rules in Dafny

This project models the decision logic inside the React client of Orbit Finance. Orbit
Finance is a board, comment, account and market-data front end over remote REST services.
Each event handler and render rule becomes a pure function:

- its inputs are the component state, the field values and the way each network call
  settled;
- its outputs are the next state, the request sent, and the browser effects it asks for.

Browser effects are alerts, router pushes, `location.href` assignments and delayed
callbacks.

Modules follow the components:

- `Board`, `PostItem`: the post list, with search-term highlighting, post conversion, the
  "create post" gate, the snippet and the date and author labels.
- `Register`, `PasswordChange`, `NewPost`, `PostEdit`: the forms, with ordered validation,
  field resets, loading flags and the multipart body.
- `CommentSection` (the post page's section) and `AppCommentSection` (the stand-alone
  section). Both sit on `CommentList`, which holds append, replace-by-id and filter-by-id.
- `CurrencyRate`, `KoreanStock`, `GlobalStock`: the market widgets. `Market` holds the
  chart payload and the change-rate colours they share.
- `Common`, `Text`, `Validation`: JavaScript's semantics where the rules depend on them.
  - Truthiness of an optional string.
  - `trim` with ECMAScript's white-space set.
  - ASCII `toLowerCase`, `includes`, `toString` and `parseInt(s, 10)`.
  - Ordered first-failing-check validation, used as a reference definition.

Most proved properties relate two members, or relate a member to an independent
definition:

- highlighting is the unique split of the text at the term's case-insensitive occurrences;
- `parseInt` inverts `toString` on post ids;
- each form's `if` chain is the first failing check of an ordered list;
- a freshly created comment is removed again by its delete;
- a widget's flags are decided by the latest fetch alone;
- the selection the stock probe settles on is a fixpoint, and its button is never
  disabled.

The Korean-stock widget's "not found" branch tests the request wrapper's message. That
message carries the response's status text, not its status code. The component is modelled
as written, and the consequence is stated as `KoreanStock.NotFoundFromStatusText` and
`KoreanStock.ReasonPhraseIsGeneric`.

## Model

| member | source | states |
|---|---|---|
| Text.Trim | components/PostEditForm.tsx:39 | `trim` returns a contiguous piece of the input that neither starts nor ends with white space, and is empty exactly when the input is all white space |
| Text.Contains | components/PasswordChangeForm.tsx:41 | `includes` holds exactly when the needle occurs at some index of the text |
| Text.ParseInt | components/PostEditForm.tsx:20 | `parseInt(s, 10)` skips leading white space and reads an optional sign; it is NaN (`None`) when no digit follows, and otherwise the signed value of the longest run of leading digits, whatever comes after it |
| Text.ParseIntOfIntToString | app/board/Board.tsx:49 | every integer id written by `toString` reads back as itself through `parseInt` |
| Board.SplitByTerm | app/board/Board.tsx:62-63 | splitting on the case-insensitive capture group gives an odd number of pieces that concatenate to the text; every odd piece is an occurrence of the term ignoring case, and no occurrence starts inside an even piece |
| Board.SplitUnique | app/board/Board.tsx:62-63 | any division of the text with those properties is the split: the occurrences are the left-to-right, non-overlapping ones |
| Board.HighlightText | app/board/Board.tsx:60-72 | the text comes back unchanged exactly for an empty term; otherwise the parts are the pieces of the split, so they display the text exactly, and a part is marked iff it sits at an odd index iff it equals the term ignoring case |
| Board.ConvertPost | app/board/Board.tsx:48-58 | the converted id parses back to the numeric id and every other field is copied |
| Board.ConvertPosts | app/board/Board.tsx:48-58 | conversion keeps length and order, and each entry is the conversion of the post at its index: the id parses back and every other field is copied |
| Board.ConvertedKeysDistinct | app/board/Board.tsx:96-99 | the converted ids used as list keys coincide exactly when the numeric ids do |
| Board.LoggedInAfterCheck | app/board/Board.tsx:33-44 | the flag is true only after the session check resolved with `isLoggedIn`; a pending or failed check leaves it false |
| Board.NavigateToCreatePost | app/board/Board.tsx:75-84 | the button pushes `/board/new` iff logged in; the login alert and the push to `/login` happen iff not |
| Board.CreatePostNeedsResolvedLogin | app/board/Board.tsx:33-84 | the button reaches `/board/new` exactly when the session check resolved as logged in |
| PostItem.ContentSnippet | app/board/PostItem.tsx:53-55 | empty content gives an empty snippet, content of at most 80 characters is kept, and longer content is cut to 80 characters followed by `...`, so a snippet never exceeds 83 |
| PostItem.SnippetIdempotent | app/board/PostItem.tsx:53-55 | taking the snippet of a snippet changes nothing |
| PostItem.SnippetKeepsPrefix | app/board/PostItem.tsx:53-55 | the snippet starts with the first 80 characters of the content |
| PostItem.EditedSuffix | app/board/PostItem.tsx:47-50 | the "edited" suffix is non-empty iff the update time is truthy and differs from the creation time, and then starts with the edited label |
| PostItem.FormattedCreatedAt | app/board/PostItem.tsx:40-45 | the absolute date is shown iff the post was created more than 86,400,000 ms before now; it names the creation's UTC day, and the relative text is shown otherwise |
| PostItem.IsoDateIsBeforeToday | app/board/PostItem.tsx:42-45 | an absolute date is always an earlier UTC day than the current one |
| PostItem.AuthorNameAfterLookup | app/board/PostItem.tsx:31-37 | the author name is known only after a resolved lookup for a truthy user id, and it is the looked-up name |
| PostItem.AuthorLabel | app/board/PostItem.tsx:70 | an unknown or empty author name falls back to the placeholder; a known one is shown as is |
| PostItem.AuthorShownAfterLookup | app/board/PostItem.tsx:31-37 | lookup and fallback together: the author is named only after a resolved lookup of a truthy user id that returned a non-empty name; otherwise the placeholder shows |
| PostItem.RenderItem | app/board/PostItem.tsx:57-95 | an entry links to its post, displays the title and the snippet exactly (highlighting only adds marks) and labels the author with the fallback |
| PostItem.LayoutsAgree | app/board/PostItem.tsx:58-95 | the search layout and the default layout show the same author, snippet and dates |
| PostItem.UneditedPostHasNoSuffix | app/board/PostItem.tsx:47-50 | an entry shows no "edited" suffix exactly when the update time is missing, empty or equal to the creation time |
| Validation.FirstFailure | app/register/page.tsx:18-29 | the first failing check's message is reported, and nothing iff every check passes |
| Validation.FirstFailureIs | app/register/page.tsx:18-29 | when check `i` fails and all before it pass, its message is the one reported, whatever follows |
| Register.ValidateRegistration | app/register/page.tsx:18-29 | a short email is reported first, a short name only when the email passed, a short password only when both passed |
| Register.ValidationIsFirstFailure | app/register/page.tsx:18-29 | the `if` chain equals the ordered first-failure rule over the three checks |
| Register.Submit | app/register/page.tsx:13-48 | the error is cleared and `createUser(email, name, pwd)` is called iff validation passes; success alerts and goes to `/login`; an `Error`'s message or the fixed text becomes the error |
| PasswordChange.FailureAlert | components/PasswordChangeForm.tsx:38-49 | an `Error` whose message contains the service's phrase gives the wrong-password alert, any other `Error` the change-failed alert, and a non-`Error` the unknown-error alert |
| PasswordChange.Submit | components/PasswordChangeForm.tsx:14-54 | the success text is cleared first; a short password is reported before a mismatch; the call is made iff both checks pass; success sets the success text and schedules, after 2000 ms, the changed alert and the push to `/`; a rejection alerts as `FailureAlert` says and only the wrong-password one clears a field |
| PasswordChange.RejectionResetsOnlyOldPassword | components/PasswordChangeForm.tsx:40-49 | a rejection clears the current password exactly when it names a wrong current password, and never touches the new password or its confirmation |
| PasswordChange.WrongOldPasswordFromResponse | lib/apis/user.ts:137 | through the wrapper's prefixed message, the field is cleared exactly when the service's response text contains the phrase |
| NewPost.HandleFileChange | app/board/new/page.tsx:14-18 | an event without a file list keeps the chosen files; any list replaces them |
| NewPost.Submit | app/board/new/page.tsx:22-43 | the post is created iff title and content are non-empty (not trimmed); loading is set during the call and cleared after it either way; the effects follow the outcome |
| NewPost.DisabledWhileCreating | app/board/new/page.tsx:89-91 | the submit button is disabled while the call is in flight and enabled once it settles |
| NewPost.ResubmitAfterFailure | app/board/new/page.tsx:22-43 | after a failed create, submitting the returned form again sends the same request; a refused form is refused again with the same alert |
| NewPost.FileChangeSettles | app/board/new/page.tsx:14-18 | reporting the same file list twice changes nothing, and the latest list reported is kept |
| PostEdit.Load | components/PostEditForm.tsx:17-30 | a loaded post fills title and content, a failed load keeps them, and loading ends either way |
| PostEdit.HandleFileChange | components/PostEditForm.tsx:32-36 | only the first file of a non-empty selection is kept; an empty or missing selection keeps the prior file |
| PostEdit.FileChangeSettles | components/PostEditForm.tsx:32-36 | choosing the same selection twice changes nothing, and the latest non-empty selection decides the file |
| PostEdit.BuildFormData | components/PostEditForm.tsx:45-53 | the body holds title, content and userId in that order, and a `files` entry iff a file was chosen |
| PostEdit.BodyNamesDistinct | components/PostEditForm.tsx:45-53 | no two entries of the multipart body share a name |
| PostEdit.BodyCarriesWhatCreateSends | components/PostEditForm.tsx:46-47 | the body's title and content entries carry exactly the title and content the new-post page sends for the same fields |
| PostEdit.HandleUpdate | components/PostEditForm.tsx:38-62 | the update is sent iff title and content are non-blank after trimming, with the parsed id and the built body; success goes to the post's page |
| PostEdit.UpdateTargetsLoadedPost | components/PostEditForm.tsx:20-55 | the post is fetched and updated under the same base-10 id, which is the numeric id the route was written from |
| PostEdit.BlankTitleOnlyRejectedOnEdit | components/PostEditForm.tsx:39-42 | a title of spaces is refused by the edit form but sent by the new-post page |
| CommentList.Append | components/CommentSection.tsx:34 | the new comment lands at the end and the earlier ones are kept in order |
| CommentList.ReplaceById | components/CommentSection.tsx:46 | exactly the comments carrying the id are replaced; length and the others are kept |
| CommentList.RemoveById | components/CommentSection.tsx:56 | exactly the comments carrying the id are dropped, the rest keep their relative order, and the length drops by their number |
| CommentList.ReplaceByIdFacts | components/CommentSection.tsx:46 | replacing an id no comment carries changes nothing, and replacing twice equals replacing once |
| CommentList.RemoveAbsentId | components/CommentSection.tsx:56 | filtering out an id no comment carries keeps the list |
| CommentList.AppendThenRemove | components/CommentSection.tsx:34-56 | deleting a freshly appended comment with a new id gives back the earlier list |
| CommentSection.Load | components/CommentSection.tsx:23-27 | fetched comments replace the list; a failed fetch changes nothing |
| CommentSection.AddComment | components/CommentSection.tsx:29-39 | nothing happens for blank text or without a truthy user id; otherwise the comment is created, appended at the end and the input cleared |
| CommentSection.UpdateComment | components/CommentSection.tsx:41-51 | blank edit text does nothing; otherwise the matching comments are replaced in place and edit mode ends |
| CommentSection.DeleteComment | components/CommentSection.tsx:53-60 | the delete is always sent; on success exactly the matching comments disappear, the rest stay in order, and the list shrinks by the number of matching comments, so no kept comment is lost |
| CommentSection.StartEdit | components/CommentSection.tsx:104 | the edit slot takes the comment's id and the buffer its text |
| CommentSection.CancelEdit | components/CommentSection.tsx:93 | the edit slot is emptied and nothing else changes |
| CommentSection.SingleEditSlot | components/CommentSection.tsx:83-104 | after starting an edit, exactly the comments with that id are editors; after cancel or a successful save, none is |
| CommentSection.EditSendsCommentText | components/CommentSection.tsx:90-104 | saving right after starting sends the comment's own text under its id |
| CommentSection.AddThenDeleteRestores | components/CommentSection.tsx:29-60 | a successful add followed by a successful delete of that comment restores the list |
| AppCommentSection.Load | app/comments/CommentSection.tsx:22-32 | fetched comments replace the list; a failed fetch changes nothing |
| AppCommentSection.SubmitComment | app/comments/CommentSection.tsx:34-48 | blank text does nothing; no user id alerts and never calls the service; otherwise the comment is appended and the input cleared |
| AppCommentSection.DeleteComment | app/comments/CommentSection.tsx:50-59 | nothing without a truthy user id; otherwise, on success, exactly the matching comments are dropped, the rest stay in order, and the list shrinks by their number |
| AppCommentSection.DeleteButtonSendsRequest | app/comments/CommentSection.tsx:71-72 | a shown delete button always sends the deletion of its own comment |
| AppCommentSection.OwnerGatesCompared | app/comments/CommentSection.tsx:71 | the two sections' owner gates agree for every truthy user id, and differ for the empty id |
| AppCommentSection.SubmitAgreesWithAdd | app/comments/CommentSection.tsx:34-48 | for a signed-in user both sections send the same request and reach the same list and input |
| AppCommentSection.FirstCommentHidesNotice | app/comments/CommentSection.tsx:64 | the empty-list notice goes away after a successful first comment |
| Market.FirstSeries | components/CurrencyRate.tsx:135 | the first series exists iff the payload has a dataset, and is that dataset's data |
| Market.PrepareStockChart | components/KoreanStock.tsx:111-126 | no chart for a missing or `null` payload; a stored payload with a first series is drawn from it; a stored payload without one throws when `datasets[0].data` is read |
| Market.CurrencyRateColour | components/CurrencyRate.tsx:191-195 | grey for a missing rate, red iff positive, blue iff negative, dark grey iff zero |
| Market.StockRateColour | components/KoreanStock.tsx:159 | red iff the rate is present and positive, blue otherwise |
| Market.RateColourIsSignOnly | components/CurrencyRate.tsx:192-194 | the colours depend only on the rate's sign |
| Market.RateColoursCompared | components/GlobalStock.tsx:200-202 | the stock and currency colours agree on rises and falls and differ on missing and zero rates |
| CurrencyRate.PeriodKey | components/CurrencyRate.tsx:81 | the flag key is the pair code, an underscore, then the period |
| CurrencyRate.PeriodKeyInjective | components/CurrencyRate.tsx:79-95 | keys of distinct (pair, period) combinations differ when pair codes contain no underscore |
| CurrencyRate.DisplayedKeysDistinct | components/CurrencyRate.tsx:35-39 | every displayed pair and period has its own flag |
| CurrencyRate.Start | components/CurrencyRate.tsx:62-63 | a fetch starts by showing loading and clearing the general error |
| CurrencyRate.ApplyChart | components/CurrencyRate.tsx:74-101 | success stores the payload under the pair and lowers its flag; a 404 raises the flag; any other failure sets the general error from the message or the fallback |
| CurrencyRate.FetchData | components/CurrencyRate.tsx:60-109 | a summary failure changes neither error nor chart; the general error is set iff the chart failed other than with 404; the payload changes only on success |
| CurrencyRate.OnlySelectedFlagChanges | components/CurrencyRate.tsx:79-95 | a fetch leaves the flag of every other pair and period as it was |
| CurrencyRate.PreparedChart | components/CurrencyRate.tsx:115-148 | a chart is prepared iff the pair has a stored payload with a first series; otherwise the "cannot load" text |
| CurrencyRate.Render | components/CurrencyRate.tsx:150-267 | loading wins over the error, the error over the widget, and within it the period notice over the chart |
| CurrencyRate.StartShowsSpinner | components/CurrencyRate.tsx:154-156 | a fetch in flight shows only the spinner |
| CurrencyRate.NoDataNoticeIffNotFound | components/CurrencyRate.tsx:90-100 | after a fetch the period notice shows iff the chart answered 404, and the error banner iff it failed otherwise |
| CurrencyRate.LoadedChartIsDrawn | components/CurrencyRate.tsx:75-82 | a loaded chart with a series is drawn under the pair's code |
| CurrencyRate.Select | components/CurrencyRate.tsx:282 | a button changes only the selection |
| CurrencyRate.PeriodButtonStyle | components/CurrencyRate.tsx:275-281 | the selected period is highlighted; another is greyed iff its flag is raised |
| CurrencyRate.UnavailablePeriodStillSelectable | components/CurrencyRate.tsx:275-282 | a greyed period can still be chosen, and then shows its notice |
| KoreanStock.FindCode | components/KoreanStock.tsx:68 | the lookup finds the first listed entry with the code, or reports that none has it |
| KoreanStock.SelectedLabel | components/KoreanStock.tsx:67-70 | a listed code shows a listed name for it; an unlisted code shows itself |
| KoreanStock.ListedCodesDistinct | components/KoreanStock.tsx:25-46 | no code is listed twice |
| KoreanStock.ListedLabel | components/KoreanStock.tsx:67-70 | every listed stock is shown under its own name |
| KoreanStock.FetchData | components/KoreanStock.tsx:72-108 | flags reset first; a failed summary keeps the stored one; a chart error sets not-found iff it is an `Error` whose message contains "404", else the generic message |
| KoreanStock.FlagsFollowLatestFetch | components/KoreanStock.tsx:75-98 | two fetches with the same chart outcome end with the same not-found flag and error, whatever state and summary outcome they started from |
| KoreanStock.Render | components/KoreanStock.tsx:110-221 | the chart payload is read before anything is shown, so a stored payload without a first series throws; otherwise loading, error, summary and chart are independent blocks, the title is the listed name, and the not-found notice wins over the stored chart |
| KoreanStock.GenericErrorKeepsEarlierChart | components/KoreanStock.tsx:89-126 | after a generic chart error the earlier chart of that stock still shows under the error, or the render throws if that payload has no series |
| KoreanStock.ThrowsBeforeNotFoundNotice | components/KoreanStock.tsx:111-183 | with not-found raised, the render throws exactly when a stored payload has no first series, and shows the not-found notice otherwise |
| KoreanStock.NotFoundFromStatusText | lib/apis/koreanStock.ts:13-14 | through the wrapper, not-found is raised exactly when the response's status text contains "404" |
| KoreanStock.ReasonPhraseIsGeneric | lib/apis/koreanStock.ts:13-14 | a 404 whose status text is "Not Found" is reported as the generic error |
| GlobalStock.AvailableCodes | components/GlobalStock.tsx:71-86 | the available list holds exactly the codes whose probe answered ok, in list order |
| GlobalStock.AdjustSelection | components/GlobalStock.tsx:89-91 | the selection moves to the first available code iff some are available and it is not among them |
| GlobalStock.CheckAvailableStocks | components/GlobalStock.tsx:69-93 | the probe loop collects the available list and adjusts the selection as specified |
| GlobalStock.Codes | components/GlobalStock.tsx:75 | the stocks checked are the listed codes, in order |
| GlobalStock.AdjustSelectionSettles | components/GlobalStock.tsx:89-97 | re-running the adjustment on the same answers leaves the selection where it is |
| GlobalStock.SelectionNeverDisabled | components/GlobalStock.tsx:176 | the adjusted selection's button is never disabled |
| GlobalStock.ListedCodesDistinct | components/GlobalStock.tsx:13-34 | no code is listed twice |
| GlobalStock.DisabledIffProbeFailed | components/GlobalStock.tsx:171-176 | when some probe answered, a button is disabled iff its own probe did not; when none did, no button is |
| GlobalStock.StockButtonStyle | components/GlobalStock.tsx:168-174 | the selected stock is highlighted; another is greyed iff disabled |
| GlobalStock.ApplyCheck | components/GlobalStock.tsx:88-92 | the check stores the list, adjusts the selection and ends loading |
| GlobalStock.FetchData | components/GlobalStock.tsx:100-130 | each request stores its payload or an explicit null under the selected code; loading and error end cleared |
| GlobalStock.AvailableAfterFetch | components/GlobalStock.tsx:158 | after a fetch, data counts as available iff one of the two requests succeeded |
| GlobalStock.UnfetchedCountsAsAvailable | components/GlobalStock.tsx:158 | a stock with no entries at all counts as available |
| GlobalStock.FindName | components/GlobalStock.tsx:159 | the lookup finds a name iff some entry carries the code, and the name is that entry's |
| GlobalStock.ListedName | components/GlobalStock.tsx:159 | a code's name is found iff it is listed, and is then a listed name for it |
| GlobalStock.Render | components/GlobalStock.tsx:138-256 | the chart payload is read before the early returns, so a stored payload without a first series throws; otherwise loading wins over the error, the error over the unavailable notice; the summary and chart show iff their entries hold payloads; the heading is the name, else the code |
| GlobalStock.FailedRequestsRendered | components/GlobalStock.tsx:106-123 | both requests failing shows the unavailable notice; a chart failure alone shows "cannot load" |
| GlobalStock.ThrowsBeforeLoadingText | components/GlobalStock.tsx:138-155 | while loading, the loading text shows exactly when no stored payload lacks a first series; such a payload throws first |

## Left out

- Network I/O is left out. The fetch and axios wrappers in `lib/apis`, `checkAuthStatus`,
  `getUser`, `getPostById` and the comment service are not modelled. How each call settled
  is an input (`Outcome`, `ChartResult`, `Probe`). The wrappers' message prefixes are
  modelled only where a component reads them: the password-change and Korean-stock lemmas.
- `createPosts` runs its own login check inside the wrapper (alert, redirect, throw). That
  check is not modelled; the new-post page sees it as a rejected call.
- Browser effects are data (`Effect`), not behaviour: `alert`, `router.push`,
  `window.location.href` and `setTimeout`. The 2000 ms delay is carried as a number.
- React scheduling and concurrency are not modelled: effect ordering, overlapping fetches
  and stale responses. In `GlobalStock` the probe effect and the fetch effect share
  `loading` and race. Each handler is modelled as one sequential run from the state it
  started in.
- The outer `catch` of the three widgets' `fetchData` is not modelled. It is unreachable in
  the model: the inner catches swallow every rejection, and state setters do not throw. So
  `GlobalStock`'s `error` is only ever cleared. In `CurrencyRate` a `null` or `undefined`
  rejection would make the 404 test itself throw; the request wrappers never reject with
  one.
- Date handling is not modelled: `date-fns` formatting, `toLocaleString` and `Date.now()`.
  Times are integers in ms, and relative texts are inputs. `toISOString().slice(0, 10)` is
  kept as the UTC day number rather than the `yyyy-mm-dd` string. Chart labels are kept as
  the stored timestamps.
- In the stock widgets, a chart label that `format` cannot parse would throw during render,
  as the missing first series does. This throw is not modelled.
- Floating point is not modelled: prices and rates are `real`, and `toFixed` text is left
  out. Only the sign of a change rate is used.
- JSX layout, CSS classes other than the ones that encode a rule, and Chart.js options are
  presentation and are left out.
- Text is modelled as sequences of code points. JavaScript's `length` and `slice` count
  UTF-16 code units. So every length rule is exact only for text without astral-plane
  characters: the 80-character snippet cut (app/board/PostItem.tsx:53-55), the registration
  minimums (app/register/page.tsx:18, 22, 26) and the 8-character password minimum
  (components/PasswordChangeForm.tsx:19). An emoji counts twice in the source and once
  here.
- Board.HighlightText: requires a term without regular-expression metacharacters, and
  compares case with ASCII folding only. The source builds a regular expression from the
  raw term, so a metacharacter changes its meaning.
  - The expression's `i` flag (without `u`) also folds non-ASCII letters that have an
    upper-case form, such as `É` against `é`. The model compares those exactly.
  - The source's `toLowerCase` comparison folds more than the expression does. It maps the
    Kelvin sign to `k`, for example, which the expression never matches.
- Text.ParseInt, Text.IntToString: integers are unbounded. Ids beyond 2^53 lose precision
  in JavaScript, and ids from 10^21 up print in exponent form. Neither is modelled.
- The success callbacks show results and leave the page. The page components that host
  these forms, and the shell components, hold no decision rules and are left out.
