# Blog front-end: list state of the feed and search pages

This project models the client-side state logic of a Next.js blog front-end.
That logic lives in four files:

- the home page `app/page.tsx` holds a feed of posts, a "Most Liked" sidebar and a Previous / Next pager;
- the presentational column `components/main-content-section.tsx` renders the feed rows and the pager;
- the search page `app/search/page.tsx` runs a mock search, chooses between three views and toggles likes on its result;
- the header's search box `components/search-bar.tsx` navigates to the search page for the trimmed query.

Modules, one per concept:

- `Optional`: an Option type, for the `?:` fields and the absent URL parameter.
- `Text`: `toLowerCase` (ASCII letters), `includes` and `trim`, the last with the exact ECMAScript white-space set, each proved against a declarative description.
- `Posts`: the `BlogPost` record and the like toggle used by every list. The toggle is the one `map` that flips `isLiked` and moves `likes` by one.
- `MockData`: the canned post the mock generators copy, and the decimal numerals in their ids.
- `Routes`: navigation targets. `router.push` is recorded as a `Route` value. Submitting a query leads to the search route for `trim(query)`, or nowhere when the query is blank.
- `MainContent`: the pager targets and disabled flags, and the rows with their like argument and dividers. The component has no state, so everything here is a function of its props.
- `Feed`: the mock generators and the home page's state, as a `FeedPage` class whose methods are the handlers and the page effect.
- `Search`: the mock search, the desktop and mobile view selection, and the search page's state, as a `SearchPage` class.
- `SearchForm`: the header search box, as a `SearchBar` class.

State that React keeps in `useState` is written as class fields, and each handler is a method.
The values the handlers compute are functions: `Toggle`, `SearchResults`, `SearchDestination` and `DesktopView`.
A `fault` parameter selects the `catch` path of a `try` block. The mock bodies cannot actually throw, so in the source that path is unreachable.
A handful of scenario methods at the end of `Feed`, `Search` and `SearchForm` replay short click sequences against the classes.

`handlePageChange` stores the page it is given unchanged (app/page.tsx:112-114). The clamping to `[1, totalPages]` happens where the buttons call it, through `Math.max` and `Math.min`. `HandlePageChange` therefore accepts any page number and keeps it, and only the button methods promise that the page stays in range (`PageInRange`).

## Model

| member | source | states |
|---|---|---|
| Posts.Flip | app/page.tsx:98 | the spread flips `isLiked`, moves `likes` down by one for a liked post and up by one otherwise, and keeps every other field |
| Posts.ToggleOne | app/page.tsx:97-99 | one element of the like map: the post with the clicked id is flipped, any other post is kept as it is |
| Posts.Toggle | app/page.tsx:95-101 | the like map keeps the list's length; every post with the clicked id is flipped; every other post is unchanged |
| Posts.ToggleKeepsIds | app/page.tsx:103-109 | toggling keeps the order of the list: position by position, the ids are the same |
| Posts.ToggleInvolution | app/page.tsx:98 | toggling the same id twice gives back exactly the original list |
| Posts.ToggleAbsent | app/page.tsx:96-99 | toggling an id the list does not contain leaves the list unchanged |
| Posts.ToggleCommutes | app/page.tsx:94-110 | like clicks on two ids give the same list in either order |
| Posts.ToggleHitsOnePost | app/page.tsx:96-99 | with distinct ids, toggling the id at position k flips that post and no other |
| Posts.LikedVersionKeepsIds | app/page.tsx:94-110 | however the viewer has clicked, a list has the ids of the list it was loaded as, position by position |
| Posts.ToggleKeepsLikedVersion | app/page.tsx:94-110 | after a click the list is still the base list with only its like fields changed, each count within the viewer's one like of the base |
| Posts.TogglesKeepBaseLikes | app/page.tsx:94-110 | after any sequence of clicks the list is a liked version of the starting list |
| Posts.LikedVersionCounts | app/page.tsx:98 | on a liked version of unliked posts with n likes each, a count is n + 1 when the post is liked and n otherwise |
| Posts.TogglesStayNearStart | app/page.tsx:54-57 | starting from unliked posts with n likes, any sequence of clicks leaves every count at n or n + 1, never below n |
| MockData.MockPost | app/page.tsx:42-58 | a mock post carries the id and picture it is given, 20 likes, 20 comments and is not liked |
| MockData.DecimalString | app/page.tsx:43 | the numeral a template literal prints is a non-empty string of digits, one digit long exactly for numbers below ten |
| MockData.DecimalStringInjective | app/page.tsx:72 | different numbers print as different numerals |
| Feed.FeedId | app/page.tsx:43 | a feed id is `post-` followed by the decimal numeral of the position plus one |
| Feed.LikedId | app/page.tsx:72 | a most-liked id is `liked-` followed by the decimal numeral of the position plus one |
| Feed.MockFeed | app/page.tsx:42-58 | the feed generator yields five posts with ids `post-1` to `post-5` and the picture `/image-5.png`, each with 20 likes and not liked |
| Feed.MockMostLiked | app/page.tsx:71-86 | the most-liked generator yields three posts with ids `liked-1` to `liked-3` and no picture, each with 20 likes and not liked |
| Feed.MockIds | app/page.tsx:43 | the generated ids are literally `post-1` to `post-5` and `liked-1` to `liked-3` |
| Feed.MockIdsDistinct | app/page.tsx:72 | within each generated list no two posts share an id |
| Feed.MockIdsDisjoint | app/page.tsx:43 | no feed id equals a most-liked id |
| Feed.MockListsIndependent | app/page.tsx:103-109 | in any state that loaded both lists, toggling a feed id leaves the most-liked list unchanged, and toggling a most-liked id leaves the feed unchanged |
| Feed.FeedPage.constructor | app/page.tsx:28-32 | the page starts with both lists empty, on page 2 of 3, loading |
| Feed.FeedPage.FetchPosts | app/page.tsx:39-67 | fetchPosts installs the mock feed and 3 pages, or changes neither on the catch path; loading is false afterwards either way |
| Feed.FeedPage.FetchMostLikedPosts | app/page.tsx:69-92 | fetchMostLikedPosts installs the mock most-liked list or, on the catch path, changes nothing |
| Feed.FeedPage.PageEffect | app/page.tsx:34-37 | the effect runs both fetches and leaves the page number alone |
| Feed.FeedPage.HandleLike | app/page.tsx:94-110 | handleLike applies the same toggle to both lists, each on its own; a feed id leaves the most-liked list as it was and a most-liked id leaves the feed as it was; the page number, page count and loading flag are kept |
| Feed.FeedPage.HandlePageChange | app/page.tsx:112-114 | handlePageChange stores any page number it is given, without clamping; a new value re-runs the page effect and clears loading, the same value changes nothing |
| Feed.FeedPage.ClickPrevious | app/page.tsx:221-222 | from a page in range, a disabled Previous (on page 1) changes neither the page, the lists nor loading; an enabled one moves to the previous page, reloads both lists and clears loading; the page stays in range |
| Feed.FeedPage.ClickNext | app/page.tsx:243-244 | from a page in range, a disabled Next (on the last page) changes neither the page, the lists nor loading; an enabled one moves to the next page, reloads both lists and clears loading; the page stays in range |
| Feed.LikeCounts | app/page.tsx:98 | in any reachable state every displayed like count is 21 for a liked post and 20 otherwise |
| MainContent.PreviousTarget | components/main-content-section.tsx:110 | Previous requests `max(1, currentPage - 1)`: at least 1 and at least currentPage - 1, and equal to one of them |
| MainContent.NextTarget | components/main-content-section.tsx:132 | Next requests `min(totalPages, currentPage + 1)`: at most totalPages and at most currentPage + 1, and equal to one of them |
| MainContent.PreviousDisabled | components/main-content-section.tsx:111 | Previous is disabled exactly when pressing it would request the page already shown |
| MainContent.NextDisabled | components/main-content-section.tsx:133 | Next is disabled exactly when pressing it would request the page already shown |
| MainContent.TargetsInRange | components/main-content-section.tsx:110-133 | from a page in `[1, totalPages]`, both requested pages lie in `[1, totalPages]` |
| MainContent.DisabledExactlyWhenStuck | components/main-content-section.tsx:111-133 | Previous is disabled exactly when it would request the current page; likewise Next; an enabled button moves by exactly one page |
| MainContent.PreviousNextInverse | components/main-content-section.tsx:110-132 | Next undoes an enabled Previous, and Previous undoes an enabled Next |
| MainContent.Rows | components/main-content-section.tsx:44-100 | one row per post, in order; each row's like button passes exactly its post's id; a divider follows every row but the last |
| MainContent.DividersBetweenRows | components/main-content-section.tsx:100 | n rows carry n - 1 dividers, and an empty list carries none |
| MainContent.LikeClickFlipsItsRow | components/main-content-section.tsx:87 | handing a row's like argument to the toggle flips that row's post and, when ids are distinct, no other |
| Text.LowerChar | app/search/page.tsx:49 | a lower-cased character is never an upper-case letter; an upper-case letter becomes the lower-case letter at the same place in the alphabet; any other character is kept |
| Text.Lower | app/search/page.tsx:49 | lower-casing keeps the length, maps each character on its own, leaves no upper-case letter and keeps every other character |
| Text.LowerIdempotent | app/search/page.tsx:49 | lower-casing twice is lower-casing once |
| Text.Includes | app/search/page.tsx:49 | `includes` is true exactly when the substring occurs at some position |
| Text.MissingFirstCharExcludes | app/search/page.tsx:49 | a string without the first character of the substring does not include it |
| Text.SpaceClasses | components/search-bar.tsx:20-21 | space, tab, line feed and carriage return count as white space for `trim`; no character strictly between the space and the no-break space does (the printable ASCII characters, DEL and the C1 controls) |
| Text.TrimStart | components/search-bar.tsx:21 | dropping leading white space keeps a suffix that does not start with white space, and everything dropped is white space |
| Text.TrimEnd | components/search-bar.tsx:21 | dropping trailing white space keeps a prefix that does not end with white space, and everything dropped is white space |
| Text.Trim | components/search-bar.tsx:20-21 | `trim` never lengthens a string, and its result neither starts nor ends with white space |
| Text.TrimIsCore | components/search-bar.tsx:20-21 | `trim` yields a slice of the input with only white space around it, and that slice neither starts nor ends with white space |
| Text.TrimUnique | components/search-bar.tsx:21 | any slice with only white space around it that neither starts nor ends with white space is the result of `trim` |
| Text.TrimStartSkipsSpace | components/search-bar.tsx:21 | leading white space never survives trimming, whatever follows it |
| Text.TrimEndSkipsSpace | components/search-bar.tsx:21 | trailing white space never survives trimming, whatever precedes it |
| Text.TrimStartAppend | components/search-bar.tsx:21 | dropping leading white space looks only at the front of the string |
| Text.TrimStartOfSpace | components/search-bar.tsx:20 | a string of white space only loses everything when its leading white space is dropped |
| Text.TrimIgnoresLeading | components/search-bar.tsx:21 | white space added in front of a string does not change its trim |
| Text.TrimIgnoresTrailing | components/search-bar.tsx:21 | white space added after a string does not change its trim |
| Text.TrimIgnoresPadding | components/search-bar.tsx:21 | white space added around a string does not change its trim |
| Text.TrimIdempotent | components/search-bar.tsx:21 | trimming twice is trimming once |
| Text.TrimEmptyIff | components/search-bar.tsx:20 | the trim is empty exactly when the string is all white space |
| Routes.Href | app/search/page.tsx:84 | shape only: the URL of a search route starts with `/search?q=`; the full URL of a submission is stated by Routes.SubmittedUrl |
| Routes.SearchDestination | components/search-bar.tsx:20-21 | a query is blank exactly when it leads nowhere; any other query leads to the search route for a non-empty query that neither starts nor ends with white space |
| Routes.DestinationIsCore | components/search-bar.tsx:21 | the query of the destination is a slice of the submitted text with only white space around it |
| Routes.SubmittedUrl | components/search-bar.tsx:21 | a non-blank submission navigates to `/search?q=` followed by the encoded trim of the query |
| Routes.DestinationOfTrimmed | components/search-bar.tsx:20-21 | a non-empty query that is already trimmed leads to the search route for itself |
| Routes.DestinationIgnoresPadding | components/search-bar.tsx:21 | white space around the query does not change where submission leads |
| Routes.DestinationIsStable | app/search/page.tsx:82-84 | submitting the query of a search route leads back to that same route |
| Routes.PaddedReactExample | components/search-bar.tsx:21 | `"  react "` and `"react"` both lead to the search route for `"react"` |
| Routes.BlankExamples | components/search-bar.tsx:20 | the empty query and a query of spaces lead nowhere |
| Search.SearchHit | app/search/page.tsx:51-67 | the canned hit has id `search-1`, 20 likes, the picture `/image-5.png`, and is not liked |
| Search.SearchResults | app/search/page.tsx:49-69 | the mock search yields exactly the canned hit when the lower-cased query contains `frontend`, and nothing otherwise |
| Search.SearchIgnoresCase | app/search/page.tsx:49 | a query and its lower-cased form find the same results |
| Search.MentionSurvivesExtension | app/search/page.tsx:49 | a query whose lower-cased form contains `frontend` still does with text added before or after it |
| Search.SearchSurvivesExtension | app/search/page.tsx:49 | a query that finds the hit still finds it with text added before or after it |
| Search.FrontendDevelopmentMatches | app/search/page.tsx:49 | `"Frontend Development"` finds the canned hit |
| Search.UpperCaseMatches | app/search/page.tsx:49 | `"FRONTEND"` finds the canned hit |
| Search.NoMatchExample | app/search/page.tsx:49-69 | `"zzz-no-match"` finds nothing |
| Search.DesktopView | app/search/page.tsx:110-191 | the wide layout is blank exactly when nothing was searched, shows the first result and its like button exactly when a search found something, and shows "No results found" with a link to `/` exactly when it found nothing |
| Search.MobileSections | app/search/page.tsx:216-272 | the narrow layout renders at most one section, none exactly when nothing was searched, and that section is the result exactly when there are results, otherwise the empty view |
| Search.LayoutsAgree | app/search/page.tsx:216-290 | the narrow layout's two guards render at most one section, the same one the wide layout's ternary chooses |
| Search.ViewAfterSearch | app/search/page.tsx:49-191 | after a search that did not fail, the result view appears exactly when the lower-cased query includes `frontend`, and the empty view otherwise |
| Search.SearchPage.CurrentView | app/search/page.tsx:110-191 | the page shows the blank view exactly when nothing was searched, the first result exactly when a search found something, and its like button passes that result's id |
| Search.SearchPage.constructor | app/search/page.tsx:31-35 | the box starts with the URL query, the results empty, and `hasSearched` set exactly when that query is non-empty |
| Search.SearchPage.SearchPosts | app/search/page.tsx:45-78 | searchPosts sets the results to the mock search's, or to nothing on the catch path; loading ends false on both paths |
| Search.SearchPage.QueryEffect | app/search/page.tsx:37-43 | a non-empty URL query is copied into the box, searched and marks the page searched; an empty one changes nothing |
| Search.SearchPage.UrlChanged | app/search/page.tsx:31-43 | a changed, non-empty query re-runs the effect, leaving loading false; an unchanged or empty one leaves box, flag, results and loading as they were |
| Search.SearchPage.Input | app/search/page.tsx:210 | typing sets the box's text |
| Search.SearchPage.HandleSearch | app/search/page.tsx:80-86 | a blank box changes nothing; otherwise the page is marked searched and exactly one route, the search route for the trimmed text, is pushed |
| Search.SearchPage.HandleLike | app/search/page.tsx:88-96 | handleLike toggles the clicked id in the results and keeps them the canned hit with at most the viewer's like |
| SearchForm.SearchBar.constructor | components/search-bar.tsx:15 | the box starts empty and nothing has been pushed |
| SearchForm.SearchBar.Input | components/search-bar.tsx:35 | typing sets the box's text |
| SearchForm.SearchBar.HandleSearch | components/search-bar.tsx:18-23 | a blank box pushes nothing; otherwise exactly one route, the destination of the text, is pushed; the box keeps its text, and every route ever pushed is the search page for a non-empty query without surrounding white space |

## Left out

- Rendering: the JSX markup, class names, images, footer and the duplicated desktop and mobile markup. Only the choice of what is shown is modelled: rows, dividers, the pager's flags, and the three search views.
- The loading skeleton that the home page shows while `loading` is true. The flag itself is modelled.
- The "Result for" heading text of the search page.
- components/blog-card.tsx, components/header.tsx and components/search-header.tsx are not part of this model. The headers wrap an authentication context and UI libraries whose code is not available.
- app/post/[id]/page.tsx, the post detail view and its comments, is not part of this model.
- `encodeURIComponent`: a route is recorded as the trimmed query itself. `Href` takes the encoder as a parameter. The search page is assumed to read back exactly the query that was pushed.
- `router.push` and `useSearchParams`: navigation is a `Route` appended to `pushed`. A URL change is the call `UrlChanged`.
- React scheduling. Setters take effect at once, and effects run when the model calls them (`PageEffect`, `QueryEffect`).
- Asynchronous ordering, batching of state updates, and the stale closures inside `handleLike` are not modelled.
- `console.error` output.
- Exceptions: a `fault` flag chooses the `catch` path. The mock bodies cannot throw, so that path does not occur in the source.
- Text.Lower: lower-cases ASCII letters only, where `toLowerCase` also maps other Unicode letters. The keyword `frontend` is ASCII.
- Posts.Toggle: `likes` is an unbounded integer, not a JavaScript number. Counts stay at 20 or 21, so no rounding arises.
- `isLiked` is optional in the `BlogPost` interface. It is modelled as a plain boolean, because every list the code builds sets it to `false`.
- `useAuth` on the home page: the user it returns is never used by the modelled logic.
