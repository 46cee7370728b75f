# GitHub Repository Lister: pagination and view model

The lister is a one-page browser client. A user types a GitHub username. The
page then fetches that user's profile and one page of repositories, ten to a
page, and draws a profile card, the repository cards and the pagination
controls: Prev, Next, a "Page c of t" label and a strip of page numbers.

This Dafny project models the part of `script.js` that holds logic:

- the page state: `currentPage`, `totalPages` and `currentUsername`;
- the handlers that change that state: search, `changePage`, the page-number
  clicks, and the page count taken from the profile;
- the checks made on each response: rate limit first, then HTTP status;
- the page-number window and strip;
- the repository cards: description truncation, topic tags and the
  empty-list placeholder;
- the Prev/Next flags.

Modules:

- `Text`: `String.prototype.trim` over the ECMAScript whitespace set.
- `Responses`: the response classifier.
- `Pagination`: the page count, the clamp, the flags, the window and the
  strip. It holds `RenderPageNumbers`, the loop that builds the strip.
- `RepoView`: the cards and the rendered view of a repository response. It
  holds `DisplayRepositories`, the loop that builds the cards.
- `Controller`: the class `PaginationController`. It owns the page state,
  which the source keeps in module-level variables.

The network is abstracted. Each response becomes the arguments of a handler:
the parsed `X-RateLimit-Remaining` header, the `ok` flag, and the body fields
the page reads.

Two consequences of the code as written are modelled on purpose:

- Every navigation re-reads the input box. `ChangePage` and `JumpTo` set the
  page first and then run the search step. A different name in the box
  therefore sends the page back to 1.
- `changePage` clamps the page before the search step rejects an empty box.
  With an empty box the page still moves, but no request starts.

One more consequence follows from these. With no pages (`totalPages = 0`), a
page change leaves the page at 0. A search for a new name leaves it at 1,
which is above the page count. No invariant `currentPage <= totalPages` is
claimed, because the source does not keep one. The page window and strip are
therefore proved for every current page, not only for pages in range.

## Model

| member | source | states |
|---|---|---|
| `Text.Trim` | script.js:34 | The trimmed name has no whitespace at either end. |
| `Text.TrimSpec` | script.js:34 | The trimmed name is the input less a run of whitespace at its start and a run at its end. |
| `Text.TrimEmpty` | script.js:34-36 | The trimmed name is empty, so the search is rejected, exactly when the input is all whitespace. |
| `Text.TrimOfTrimmed` | script.js:34 | A name with no whitespace at either end trims to itself. |
| `Text.TrimIdempotent` | script.js:34 | Trimming a second time changes nothing. |
| `Responses.Classify` | script.js:51-57 | A header that parses below 1 gives the rate-limit error, even with a not-OK status. Otherwise a not-OK status gives that request's fetch error. Otherwise the body is read. Each case holds exactly. The repository handler at lines 76-82 makes the same check. |
| `Pagination.TotalPages` | script.js:61 | The page count is the smallest number of pages of 10 that hold every repository. So 25 gives 3. |
| `Pagination.ClampPage` | script.js:20-27 | The page is at most the page count. It is at least 1 when there is a page, and 0 when there is none. A page in range is kept. A page below 1 becomes 1. A page above the count becomes the count. |
| `Pagination.PrevDisabled` | script.js:160 | Prev is disabled exactly when the current page is 1. |
| `Pagination.NextDisabled` | script.js:161 | Next is disabled exactly when the current page is at or past the page count. |
| `Pagination.NavigationFlags` | script.js:160-161 | On a page in range, Prev is disabled exactly when going back one page would not move, and the same holds for Next going forward. An enabled button moves by exactly one page. |
| `Pagination.PageWindow` | script.js:170-176 | For any current page, the window lies in `[1, totalPages]`. It holds exactly `min(5, totalPages)` pages, and none when there are no pages. It contains the current page when that page is in range. It is centred on the current page when at least two pages lie on each side. Otherwise it is anchored at page 1 when the current page is 1 or 2, and at the last page when the current page is one of the last two. Together these fix the window for every input, including the pull-back at lines 174-175. |
| `Pagination.PageStrip` | script.js:178-227 | The strip is the leading items, then the window's numbers, then the trailing items. It is empty exactly when there are no pages. The `Strip` lemmas below state what it shows. |
| `Pagination.WindowItems` | script.js:197-208 | The window's numbers, one per page from `startPage` to `endPage`. There are `endPage - startPage + 1` of them, or none when the window is empty. |
| `Pagination.RenderPageNumbers` | script.js:166-227 | The loop that appends the shortcuts, ellipses and window numbers builds exactly `PageStrip`. |
| `Pagination.StripLayout` | script.js:178-227 | The strip is the first-page shortcut and leading ellipsis, then the window's numbers in order, then the trailing ellipsis and last-page shortcut. |
| `Pagination.StripEnds` | script.js:178-227 | With at least one page, the strip starts with page 1 and ends with the last page. |
| `Pagination.StripIncreasing` | script.js:178-227 | Every number shown is a page in `[1, totalPages]`. The numbers strictly increase, so no page appears twice. |
| `Pagination.WindowItemsAt` | script.js:197-208 | The k-th number the window loop appends is page `startPage + k`, highlighted exactly when it is the current page. |
| `Pagination.StripNeighbours` | script.js:178-227 | Two neighbouring numbers in the strip are consecutive pages. |
| `Pagination.StripEllipses` | script.js:188-217 | An ellipsis never comes first or last. It stands only between two numbers that hide at least one page. With `StripNeighbours`, the ellipses appear exactly where the strip leaves pages out. |
| `Pagination.StripCurrent` | script.js:197-200 | Only the current page is highlighted. It appears, highlighted, exactly when it lies in `[1, totalPages]`. |
| `Pagination.StripEmpty` | script.js:170-227 | With no pages the strip is empty. |
| `Pagination.TwentyFiveRepositories` | script.js:160-176 | A profile with 25 repositories gives 3 pages (line 61). Page 1 of them shows the strip `[1] 2 3`, with Prev disabled and Next enabled. |
| `RepoView.DescriptionText` | script.js:138-143 | A missing or empty description shows "No description available". A description of up to 150 characters shows unchanged. A longer one shows its first 150 characters followed by "...". The line is never longer than 153 characters. |
| `RepoView.TopicTags` | script.js:134-136 | A card's tags are its topics, and there are none when the topics are missing or empty. |
| `RepoView.CardFor` | script.js:130-146 | A card carries the repository's name and link, its description line and its topic tags. |
| `RepoView.PaginationFor` | script.js:151-164 | The controls drawn after the cards: the Prev and Next flags, the page label's two numbers, and the page strip. |
| `RepoView.RenderRepos` | script.js:121-153 | An empty list shows the placeholder and leaves the pagination controls alone. A non-empty list shows one card per repository, in input order, and then the controls for the current page state. |
| `RepoView.CardTags` | script.js:134-136 | A card shows one tag per topic, in the topics' order. |
| `RepoView.DisplayRepositories` | script.js:130-152 | The loop that appends the cards and then draws the controls renders exactly `RenderRepos`. |
| `RepoView.DisplayName` | script.js:106 | The profile shows the name unless it is missing or empty, and the login otherwise. |
| `Controller.PaginationController.constructor` | script.js:14-17 | The initial state is page 1, no pages, and no name. |
| `Controller.PaginationController.Search` | script.js:32-45 | An input that trims to nothing changes no state and starts no request. Otherwise the page becomes 1 exactly when the trimmed name differs from the stored one. The name is stored, and requests for that name and page start. The stored name stays trimmed, so searching the stored name again keeps the page. |
| `Controller.PaginationController.ChangePage` | script.js:19-30 | The page becomes the clamped `currentPage + delta`, unless the box holds a new name, which resets it to 1. With at least one page the result lies in `[1, totalPages]`. With none it is 0 unless the name changed. The clamp happens even when the box is empty. When the box still holds the stored name, the page is exactly the clamped value. |
| `Controller.PaginationController.JumpTo` | script.js:182-185 | A click on a page number sets that page and then searches again, so a new name in the box resets the page to 1. The window numbers at lines 202-205 and the last-page shortcut at lines 222-225 do the same. When the box still holds the stored name, the page is the one clicked. |
| `Controller.PaginationController.OnProfileLoaded` | script.js:61 | The page count becomes `ceil(publicRepos / 10)`. |
| `Controller.PaginationController.OnProfileResponse` | script.js:49-63 | Only a profile response that passes the rate-limit and status checks updates the page count. |
| `Controller.PaginationController.OnReposResponse` | script.js:74-87 | Only a repository response that passes the checks is rendered, and it is rendered with the current page state. |

## Left out

- The network: `fetch`, URLs, JSON parsing and the order in which the two responses arrive. Each handler is one atomic step on its arguments. A stale response from an earlier search is not modelled.
- `toggleLoader` (script.js:1-12), every DOM write, the HTML templates and the event-listener registration (script.js:231-237). These are UI plumbing.
- `alert` and `console.error`: the message texts of the two error kinds are not modelled. Only which error is raised is modelled.
- `displayUserProfile` (script.js:95-119) beyond the display name. The other profile fields are markup that hides a field when it is falsy.
- `parseInt`: the header is given already parsed. A header that is not a number is `Unparsable`, which like `NaN` never triggers the rate-limit error.
- `Math.ceil` on floating-point numbers: the page count is integer ceiling division on a non-negative count.
- `RepoView.DescriptionText`: lengths count Unicode scalar values, not UTF-16 code units, so a description with characters outside the Basic Multilingual Plane is cut at a different place than in the browser.
- The "Page c of t" label is kept as the pair of numbers, not as text.
