# Dashboard client logic, modelled in Dafny

This project models the few pieces of real logic in an administrative dashboard for a
portfolio/CMS site. The rest of the dashboard is React view code.

- **The authenticated HTTP client** (`lib/api.ts`), in `api_client.dfy` and `api_routes.dfy`.
  A request interceptor attaches the stored access token as `Authorization: Bearer <token>`.
  A response interceptor answers a 401 by marking the request with `_retry`, exchanging the
  stored refresh token for a new access token, storing it, and re-issuing the request once.
  `login` stores both tokens. The service functions map each call to a verb and a path.
  The pure functions `Authorize`, `Exchange` and `Recover` say what one logical request does.
  The class `Client` does the same step by step on a `Storage` object (the two localStorage
  entries `token` and `refreshToken`). `OnRequest` is proved equal to `Authorize`, `Send` and
  `Invoke` to `Exchange`, `OnResponseError` to `Recover`, and `Login` to `LoginFlow`; the
  primitive steps `Dispatch` and `PostRefresh` carry their own contracts.
  The network is a `Network` value: the configured base address, the server's answer to each
  dispatched request (given the history of dispatched requests), and the refresh endpoint's answer.
- **Navigation reordering** (`app/dashboard/navigation/page.tsx`), in `navigation.dfy`.
  `MoveItem` copies the list into an array, exchanges the `order` of an item and its neighbour,
  and sorts the array in place by `order` with an insertion sort. It is a no-op at the
  boundaries. `NavigationPage` holds the page state: the fetched and sorted list, the delete
  dialog, and the log of service calls issued.
- **List transforms** (`app/dashboard/project-images/page.tsx`,
  `app/dashboard/contact-submissions/page.tsx`), in `project_images.dfy`,
  `contact_submissions.dfy` and `lists.dfy`. These are the id→title table built by a loop,
  the image/title join with its "Unknown Project" default, the mark-as-read map, and the
  remove-by-id filter that every page applies after a delete.

Inputs that the source gets from I/O are parameters of the model: server answers, the
success or failure of each service call, and the fetched lists.

Where the code and its design description disagree, the model follows the code:
- With no refresh token stored, the request rejects with the error the interceptor throws
  ("No refresh token available"), not with the original 401. `Failure.NoRefreshToken` models this.
- A failed refresh rejects with the refresh call's own error. `Failure.RefreshError` models this.
- Tokens are tested for JavaScript truthiness. An empty stored string counts as absent, both
  when attaching the token and when checking for a refresh token.
- A missing `access` or `refresh` field in an answer is stored as the string "undefined",
  as `localStorage.setItem` stores it.

One place departs from the code on purpose: the refresh call goes to the corrected refresh
URL, under the client's base address, instead of the URL `lib/api.ts` builds on line 50.
The two agree whenever `NEXT_PUBLIC_API_URL` is set (`ApiClient.RefreshReplyAsWrittenWhenSet`).
They differ when it is unset or empty; see "## Findings".

## Model

| member | source | states |
|---|---|---|
| `ApiClient.Authorize` | lib/api.ts:12-28 | with a truthy stored token the `Authorization` header is `"Bearer " + token` and every other header and field is unchanged; with none the config passes through untouched |
| `ApiClient.Exchange` | lib/api.ts:31-71 | one logical request dispatches one or two requests and makes at most one refresh call; a request already marked `_retry` makes exactly one dispatch and no refresh; two dispatches only after a refresh call; logs only grow; `refreshToken` is never written |
| `ApiClient.Recover` | lib/api.ts:35-70 | the error handler dispatches at most one more request, only when the request was not yet marked, and only after exactly one refresh call; `refreshToken` is never written |
| `ApiClient.SuccessPassesThrough` | lib/api.ts:32-34 | a 2xx answer resolves unchanged after one dispatch, with storage untouched |
| `ApiClient.OtherFailuresRejected` | lib/api.ts:39-69 | a non-2xx answer other than a first 401, including a 401 on a request already marked `_retry`, rejects with the original error, with no refresh and no second dispatch |
| `ApiClient.MissingRefreshTokenFailsFast` | lib/api.ts:44-47 | a first 401 with no truthy refresh token rejects with the "no refresh token" error and makes no refresh call |
| `ApiClient.RefreshFailureIsFinal` | lib/api.ts:49-65 | when the refresh call fails, the request rejects with the refresh error after one refresh call and is not re-issued; storage is unchanged |
| `ApiClient.RefreshThenRetryOnce` | lib/api.ts:39-61 | after a successful refresh only `token` is overwritten, with the new access token. Exactly one retry is dispatched: the same request, marked `_retry`, carrying `"Bearer " + access`. Its own outcome is returned as the result, so a second 401 is rejected |
| `ApiClient.LoginFlow` | lib/api.ts:75-83 | login's outcome is the outcome of the token request sent through the client |
| `ApiClient.LoginStoresBothTokens` | lib/api.ts:76-78 | a login that resolves stores `token := access` and `refreshToken := refresh` from the answer; a rejected one never writes `refreshToken` |
| `ApiClient.RefreshUrlAsWrittenMissesDefault` | lib/api.ts:50 | with the base address unset, the refresh URL as written is "undefined/auth/token/refresh/", not the URL under the default base |
| `ApiClient.RefreshReplyAsWrittenWhenSet` | lib/api.ts:49-54 | whenever the base address is set, the modelled refresh call goes to exactly the URL the code builds, so it gets the same answer |
| `ApiClient.RefreshUrlUnderBase` | lib/api.ts:5 | the corrected refresh URL is the client's base address (the default when unset) followed by `/auth/token/refresh/`, and equals the URL as written whenever the base is set |
| `ApiClient.NewConfig` | lib/api.ts:4-9 | a service call starts unmarked, with its data, with its route's verb, on its route's path, which is slashed; `Content-Type` is its only header, and it is multipart exactly for the image upload |
| `ApiClient.Storage.constructor` | lib/api.ts:15-16 | storage starts with neither entry present |
| `ApiClient.Storage.SetToken` | lib/api.ts:57 | writing `token` leaves `refreshToken` as it was |
| `ApiClient.Storage.SetRefreshToken` | lib/api.ts:78 | writing `refreshToken` leaves `token` as it was |
| `ApiClient.Client.constructor` | lib/api.ts:4-9 | a client starts over a given storage and network with empty logs |
| `ApiClient.Client.OnRequest` | lib/api.ts:13-24 | the request interceptor step by step returns exactly `Authorize` of the stored token |
| `ApiClient.Client.Dispatch` | lib/api.ts:61 | a dispatch appends the request to the log and returns the server's answer to it |
| `ApiClient.Client.PostRefresh` | lib/api.ts:49-54 | a refresh call posts the refresh token to the corrected refresh URL, which is the code's URL whenever the base address is set, and is logged |
| `ApiClient.Client.Send` | lib/api.ts:12-71 | the interceptor pipeline on the storage object yields exactly the outcome, storage and logs of `Exchange` |
| `ApiClient.Client.OnResponseError` | lib/api.ts:35-70 | the imperative error handler yields exactly the outcome, storage and logs of `Recover` |
| `ApiClient.Client.Login` | lib/api.ts:75-83 | the imperative login yields exactly `LoginFlow` |
| `ApiClient.Client.Invoke` | lib/api.ts:94-244 | each service function other than login sends its route through the client |
| `ApiRoutes.RoutesAreSlashed` | lib/api.ts:94-244 | every service path begins and ends with `/`, whatever the id or slug |
| `ApiRoutes.ItemRoutesExtendCollection` | lib/api.ts:100-243 | every id/slug path is its collection path followed by `id + "/"` |
| `ApiRoutes.ItemPathExtends` | lib/api.ts:100-243 | the item path of a key is the collection path, then the key, then `/` |
| `ApiRoutes.SubResourcesExtendItem` | lib/api.ts:125-243 | the category-projects, published-page and mark-as-read paths extend the item path of their resource |
| `ApiRoutes.FeaturedExtendsCollection` | lib/api.ts:97-102 | the featured-projects path is the projects collection path followed by `featured/`, and is the same path as `getById("featured")` |
| `ApiRoutes.ItemPathInjective` | lib/api.ts:100-113 | distinct ids never share an item path |
| `ApiRoutes.MultipartOnlyForImageUpload` | lib/api.ts:150-156 | only the image upload overrides `Content-Type`, with multipart form data |
| `Lists.Without` | app/dashboard/contact-submissions/page.tsx:83 | the remove-by-id filter keeps each entry with another id as often as before and drops every entry with that id |
| `Lists.WithoutMembers` | app/dashboard/project-images/page.tsx:81 | an entry is in the result exactly when it was in the list and has another id |
| `Lists.WithoutAppend` | app/dashboard/navigation/page.tsx:68 | the filter distributes over concatenation, so the kept entries keep their order |
| `Lists.WithoutAbsent` | app/dashboard/navigation/page.tsx:68 | removing an id that no entry carries changes nothing |
| `Lists.WithoutIdempotent` | app/dashboard/contact-submissions/page.tsx:83 | deleting the same id twice equals deleting it once |
| `Navigation.IndexOf` | app/dashboard/navigation/page.tsx:86 | `findIndex` by id gives -1 or a position in the list that carries the id |
| `Navigation.IndexOfFirst` | app/dashboard/navigation/page.tsx:86 | no position before the one `findIndex` gives carries the id, and -1 means no position carries it |
| `Navigation.Swapped` | app/dashboard/navigation/page.tsx:96-98 | before sorting, the moved item has its neighbour's order, the neighbour has the item's order, and every other position is untouched |
| `Navigation.Exchanged` | app/dashboard/navigation/page.tsx:92-101 | every position other than the two keeps its item, and the order per position stays |
| `Navigation.ExchangedEntries` | app/dashboard/navigation/page.tsx:92-101 | each of the two items sits at the other's position, carrying that position's order |
| `Navigation.SortByOrder` | app/dashboard/navigation/page.tsx:101 | the in-place sort leaves the array ascending by `order`, a permutation of what it held |
| `Navigation.MoveItem` | app/dashboard/navigation/page.tsx:85-109 | at a boundary the list is unchanged and no update is issued. Otherwise the result is sorted and holds the swapped items, with the same multiset of ids; the two updates carry exactly the exchanged orders; with the listed item, the multiset of orders is kept; with strictly increasing orders, the two items exchange places and nothing else moves |
| `Navigation.MoveKeepsIds` | app/dashboard/navigation/page.tsx:91-101 | any sorting of the swapped list has exactly the ids of the input |
| `Navigation.MoveKeepsOrders` | app/dashboard/navigation/page.tsx:96-98 | exchanging the two orders keeps the multiset of orders |
| `Navigation.SortedUnique` | app/dashboard/navigation/page.tsx:101 | a sorted permutation of a strictly increasing list is that list |
| `Navigation.MoveExchangesNeighbours` | app/dashboard/navigation/page.tsx:92-101 | with strictly increasing orders, sorting the swapped list exchanges the item and its neighbour and keeps every other position |
| `Navigation.NavigationPage.constructor` | app/dashboard/navigation/page.tsx:31-34 | the page starts with no items, the dialog closed and nothing selected |
| `Navigation.NavigationPage.FetchNavItems` | app/dashboard/navigation/page.tsx:40-56 | a fetched list is shown sorted ascending by `order` as a permutation of what was fetched; a failed fetch keeps the list |
| `Navigation.NavigationPage.HandleDeleteClick` | app/dashboard/navigation/page.tsx:58-61 | the item is selected and the dialog opened |
| `Navigation.NavigationPage.ConfirmDelete` | app/dashboard/navigation/page.tsx:63-83 | with no selection nothing changes. Otherwise one delete call is issued, and a successful delete removes exactly the entries with that id. The dialog always ends closed with the selection cleared |
| `Navigation.NavigationPage.Move` | app/dashboard/navigation/page.tsx:85-119 | at a boundary nothing changes and no call is issued. Otherwise two update calls are issued, and the list shows the swapped items sorted by `order`, with the same ids. A failed update refetches the list, which then holds the refetched items sorted by `order` |
| `ProjectImages.LastTitle` | app/dashboard/project-images/page.tsx:49-52 | the title of the last project with an id, and absent exactly when no project has that id |
| `ProjectImages.BuildTitleTable` | app/dashboard/project-images/page.tsx:49-52 | the table built by the loop maps each project id to the title of the last project with that id, and has no other keys |
| `ProjectImages.LaterProjectWins` | app/dashboard/project-images/page.tsx:50 | a later project with the same id overwrites an earlier one's title |
| `ProjectImages.TitleFor` | app/dashboard/project-images/page.tsx:56 | the shown title is never empty |
| `ProjectImages.Join` | app/dashboard/project-images/page.tsx:54-57 | the joined list has the fetched length and order, every original field of each image, and a non-empty title added |
| `ProjectImages.JoinThenForget` | app/dashboard/project-images/page.tsx:55-56 | dropping the added title gives back the fetched images |
| `ProjectImages.JoinedTitle` | app/dashboard/project-images/page.tsx:49-57 | the shown title is the project's title when present and non-empty, and "Unknown Project" for a missing id or an empty title |
| `ProjectImages.ProjectImagesPage.constructor` | app/dashboard/project-images/page.tsx:31-34 | the page starts with no images, the dialog closed and nothing selected |
| `ProjectImages.ProjectImagesPage.FetchProjectImages` | app/dashboard/project-images/page.tsx:41-69 | when both lists arrive, the images are shown joined with a table of the fetched projects' titles; otherwise the list is kept |
| `ProjectImages.ProjectImagesPage.HandleDeleteClick` | app/dashboard/project-images/page.tsx:71-74 | the image is selected and the dialog opened |
| `ProjectImages.ProjectImagesPage.ConfirmDelete` | app/dashboard/project-images/page.tsx:76-96 | with no selection nothing changes. Otherwise one delete call is issued, and a successful delete removes every image with that id and keeps the rest in order. The dialog always ends closed with the selection cleared |
| `ContactSubmissions.MarkRead` | app/dashboard/contact-submissions/page.tsx:66 | mark-as-read keeps length and order, sets `is_read` on the entries with that id, and changes no other field of any entry |
| `ContactSubmissions.MarkReadIdempotent` | app/dashboard/contact-submissions/page.tsx:103 | marking an id as read twice equals marking it once |
| `ContactSubmissions.MarkReadWhenRead` | app/dashboard/contact-submissions/page.tsx:62-66 | marking an id whose entries are all read changes nothing |
| `ContactSubmissions.MarkReadCommutesWithDelete` | app/dashboard/contact-submissions/page.tsx:66-83 | marking as read and deleting by id give the same list in either order |
| `ContactSubmissions.ContactSubmissionsPage.constructor` | app/dashboard/contact-submissions/page.tsx:31-35 | the page starts empty, with both dialogs closed and nothing selected |
| `ContactSubmissions.ContactSubmissionsPage.FetchSubmissions` | app/dashboard/contact-submissions/page.tsx:41-55 | a fetched list is shown as it came; a failed fetch keeps the list |
| `ContactSubmissions.ContactSubmissionsPage.HandleViewClick` | app/dashboard/contact-submissions/page.tsx:57-71 | viewing selects and opens. Mark-as-read is called only for an unread submission, and the list changes only when that call succeeds |
| `ContactSubmissions.ContactSubmissionsPage.HandleDeleteClick` | app/dashboard/contact-submissions/page.tsx:73-76 | the submission is selected and the delete dialog opened |
| `ContactSubmissions.ContactSubmissionsPage.ConfirmDelete` | app/dashboard/contact-submissions/page.tsx:78-98 | with no selection nothing changes. Otherwise one delete call is issued; a successful delete removes every entry with that id and keeps the rest in order, and a failed one keeps the list. The delete dialog always ends closed with the selection cleared |
| `ContactSubmissions.ContactSubmissionsPage.MarkAsReadClick` | app/dashboard/contact-submissions/page.tsx:100-115 | one mark-as-read call; the list is marked only when it succeeds, and unchanged otherwise |

## Left out

- Rendering, toasts, dialogs as components, icons and date formatting: presentation only, or locale-dependent library calls.
- The transport itself, network errors with no response, and the redirect after login (`setTimeout`, `window.location`). The server and the refresh endpoint are oracles, and every answer has a status. The code reads `error.response.status` unguarded, so a missing response has no defined behaviour to model.
- Server-side rendering, where `window` is undefined and no token is read. The model assumes a browser.
- Concurrency: the `Promise.all` fan-outs and races between concurrent refreshes. The two navigation updates are one sequential pair, and one boolean says whether both succeeded.
- React's asynchronous state updates and stale closures. Each handler runs to completion on the current state. The contact page's effect that refetches when the delete dialog toggles is not modelled.
- Aliasing of the request config object: the interceptors' changes to it are modelled as updated values that flow into the retry.
- The base address in front of each path: requests carry paths relative to it. Only the refresh URL models the base address, for the finding below.
- ApiClient.Client.PostRefresh: posts to the corrected refresh URL, not to the URL line 50 builds. With `NEXT_PUBLIC_API_URL` unset or empty, the model does not capture the code's post to `undefined/auth/token/refresh/` or `/auth/token/refresh/`. `Exchange`, `Recover` and `Client` inherit this through `RefreshReply`. The finding below records the as-written URL.
- Navigation.SortByOrder: does not state that the sort is stable, which the runtime's sort guarantees. With equal orders, the model fixes the multiset and the sortedness of the result but not the relative order of ties.
- Navigation.MoveItem: requires that some item carries the moved item's id, because the source does not handle `findIndex` returning -1.
- The pages for pages, projects, categories, the dashboard counts and the sidebar. Their only logic is the same remove-by-id filter (`Lists.Without`), or counts and flags inside rendering.

## Findings

| source | as written | input that shows it | evidently intended | confidence | as-written member | corrected member |
|---|---|---|---|---|---|---|
| lib/api.ts:50 | the refresh URL interpolates `NEXT_PUBLIC_API_URL` without the fallback to `http://127.0.0.1:8000/api/v1` that line 5 applies | `NEXT_PUBLIC_API_URL` unset: the refresh is posted to `undefined/auth/token/refresh/` | the refresh endpoint under the client's base address, defaulted as on line 5 | medium, not executed | `ApiClient.RefreshUrlAsWrittenMissesDefault` | `ApiClient.RefreshUrlUnderBase` |
