# Link Hub client — a verified model of its logic

Link Hub's web client signs a user in, then lists, searches, filters, creates
and edits bookmarks ("links") grouped by category. Most of the client is
presentation. This project models the parts that are plain logic:

- **List view-model** (`LinkFilter`, `LinkList`, `Dashboard`). The link list
  keeps the links whose title, url or description contains the search text,
  ignoring case. It then keeps the links of the selected category, matched
  exactly, unless the selection is `"all"` or `""`. The category list holds
  the distinct categories of the unfiltered fetch. The dashboard shows the
  first five links and three counters.
- **Session store** (`SessionStore`). An `AuthService` class keeps a token
  under `auth_token` and a user snapshot under `auth_user` in browser
  storage. Storage is a `map<string, string>` field of `Browser.BrowserWindow`.
- **HTTP interceptors** (`ApiService`). Outbound, a stored non-empty token
  is sent as `Authorization: Bearer <token>`. Inbound, a 401 or 403 removes
  `auth_token` and `user` and redirects to `/login`. Every error is rejected
  again, unchanged.
- **Auth context** (`AuthContext`). It holds the in-memory `user` and
  `loading` and restores the user at start-up. It derives `isAuthenticated`
  as "user present and token stored".
- **Form rules and submit handlers** (`LinkForm`, `Register`). Each field's
  rules give the messages shown; the handler runs only when no rule fails.

Server responses, the library's URL and e-mail checks, and the user's input
are parameters. Toasts and navigation targets are recorded as fields.
Login and registration responses pass through the response interceptor, so
a 401 or 403 during login has the same effect as on any other call: the token
is removed and the browser goes to `/login`. The link pages take the response
as the interceptor delivers it.

Supporting modules: `Types` (the record shapes of `src/types`), `Text`
(ASCII lower-casing and `includes`), `Sequences` (`Array.prototype.filter`
as `Retain`, `Array.from(new Set(..))` as `Distinct`), `Browser` (storage
and location) and `UserCodec` (the text form of the stored user).

Two details of the code that the model keeps as written:

- A 401/403 removes `auth_token` and `user`, but the snapshot lives under
  `auth_user`, so it survives while the token is gone
  (`SessionStore.AuthFailureKeepsUserSnapshot`).
- `isAuthenticated` needs a non-empty token (`!!token`), not only a stored one.

## Model

| member | source | states |
|---|---|---|
| Text.LowerChar | src/pages/links/LinkList.tsx:73-75 | lower-casing maps each upper-case ASCII letter to its own lower-case letter, leaves every other character alone, and leaves no upper-case letter |
| Text.LowerIdempotent | src/pages/links/LinkList.tsx:73-75 | lower-casing a lower-cased text changes nothing |
| Text.IncludesIff | src/pages/links/LinkList.tsx:73-75 | `includes` holds exactly when the needle occurs at some position of the text |
| Sequences.Retain | src/pages/links/LinkList.tsx:71-81 | `Array.prototype.filter`: the result is no longer than the input (which elements it keeps is `Sequences.RetainMembers`) |
| Sequences.RetainMembers | src/pages/links/LinkList.tsx:71-81 | a filter's result contains exactly the input elements that satisfy the predicate |
| Sequences.RetainIsSubsequence | src/pages/links/LinkList.tsx:67-82 | a filter's result is an order-preserving subsequence of its input |
| Sequences.RetainIdempotent | src/pages/links/LinkList.tsx:71-81 | filtering a filtered sequence again by the same predicate returns it unchanged |
| Sequences.RetainFuse | src/pages/links/LinkList.tsx:71-81 | two filters in a row equal one filter by the conjunction of their predicates |
| Sequences.RetainCongruent | src/pages/links/LinkList.tsx:71-81 | filters by predicates that agree on every element give the same result |
| Sequences.RetainCommute | src/pages/links/LinkList.tsx:71-81 | the order of two filters does not change the result |
| Sequences.Distinct | src/pages/links/LinkList.tsx:57 | the de-duplicated sequence has no duplicates, holds exactly the input's values and is no longer than the input |
| LinkFilter.FilterLinks | src/pages/links/LinkList.tsx:66-85 | the filtered rows are no more than the links, and with no active search and no active category they are the links themselves |
| LinkFilter.FilterLinksMembers | src/pages/links/LinkList.tsx:66-85 | a link is in the filtered list iff it is in the fetched links, matches the search (when non-empty) and has the selected category (unless "all" or "") |
| LinkFilter.FilterLinksIsRetainKept | src/pages/links/LinkList.tsx:70-82 | the two filters together are one order- and multiplicity-preserving filter by the AND of both conditions |
| LinkFilter.FilterLinksIsSubsequence | src/pages/links/LinkList.tsx:67-82 | the filtered list is an order-preserving subsequence of the fetched links |
| LinkFilter.FilterLinksWithoutFilters | src/pages/links/LinkList.tsx:70-80 | with empty search text and category "all" or "" the filtered list is the fetched list |
| LinkFilter.FilterOrderIrrelevant | src/pages/links/LinkList.tsx:71-81 | applying the category filter before the search gives the same list as the page's order |
| LinkFilter.FilterLinksIdempotent | src/pages/links/LinkList.tsx:66-85 | re-filtering the filtered list with the same search and category returns it unchanged |
| LinkFilter.SearchIgnoresCase | src/pages/links/LinkList.tsx:73-75 | search texts equal up to letter case select the same links |
| LinkFilter.CategoryIsCaseSensitive | src/pages/links/LinkList.tsx:73-81 | a "Design" link is found by the search "DESIGN" and by the category "Design" but not by the category "design" |
| LinkFilter.SearchScenario | src/pages/links/LinkList.tsx:70-76 | the search "git" keeps a link titled "GitHub Guide" and a link described "uses git" |
| LinkFilter.CategoryScenario | src/pages/links/LinkList.tsx:79-81 | of three "Design" and two "Tools" links the category "Design" keeps exactly the three "Design" links, in order |
| LinkFilter.CategoryListScenario | src/pages/links/LinkList.tsx:57 | the category list of those five links offers both "Design" and "Tools" |
| LinkFilter.Categories | src/pages/links/LinkList.tsx:57 | the category list has no duplicates and is no longer than the links |
| LinkFilter.CategoriesListed | src/pages/links/LinkList.tsx:57 | the category list holds every link's category and only categories some link has |
| LinkFilter.PageSizeConfig | src/pages/links/LinkList.tsx:211-216 | the default page size 10 is one of the offered sizes 10, 20, 50, 100, which increase strictly |
| LinkList.LinkListPage.constructor | src/pages/links/LinkList.tsx:26-31 | the page starts with no links, no rows, no categories, empty search and category "all" |
| LinkList.LinkListPage.Refilter | src/pages/links/LinkList.tsx:66-85 | the shown rows become the filter of the links by the current search and category |
| LinkList.LinkListPage.FetchLinks | src/pages/links/LinkList.tsx:46-64 | on success links and categories are replaced, on failure both are kept; loading ends false; the rows stay the filter of the links and the categories stay derived from the links |
| LinkList.LinkListPage.SetSearchText | src/pages/links/LinkList.tsx:46-48 | a new search text re-filters the rows and leaves links and categories unchanged |
| LinkList.LinkListPage.SetSelectedCategory | src/pages/links/LinkList.tsx:46-48 | a new category re-filters the rows and leaves links and categories unchanged |
| LinkList.LinkListPage.ApplyNavigationCategory | src/pages/links/LinkList.tsx:39-44 | a non-empty category from the navigation state is selected; otherwise nothing changes |
| Dashboard.RecentLinks | src/pages/dashboard/Dashboard.tsx:42 | the recent links are a prefix of the links of length min(5, number of links) |
| Dashboard.StatisticsOf | src/pages/dashboard/Dashboard.tsx:102-122 | the three cards show the number of links, the number of categories and min(5, number of links) |
| Dashboard.StatisticsBounds | src/pages/dashboard/Dashboard.tsx:100-126 | recent count is at most 5 and at most the total; the category count is at most the total and positive when there are links |
| Dashboard.DashboardPage.constructor | src/pages/dashboard/Dashboard.tsx:18-20 | the dashboard starts loading with no links and no categories |
| Dashboard.DashboardPage.FetchLinks | src/pages/dashboard/Dashboard.tsx:26-40 | on success links and their distinct categories are stored, on failure both keep their values; loading is false afterwards |
| Dashboard.DashboardPage.Stats | src/pages/dashboard/Dashboard.tsx:102-122 | the counters shown satisfy the recent/total/category bounds |
| UserCodec.EncodeUser | src/services/auth.service.ts:85-87 | the stored text of a user is never empty |
| UserCodec.DecodeUser | src/services/auth.service.ts:74 | text decodes to a user only when it is exactly the text written for that user |
| UserCodec.UserRoundTrip | src/services/auth.service.ts:70-87 | reading back the text written for a user yields that user |
| UserCodec.MalformedIsRejected | src/services/auth.service.ts:72-79 | the empty text and a truncated object `{"id":` read back as no user |
| Browser.BrowserWindow.GetItem | src/services/auth.service.ts:56-58 | `localStorage.getItem`: the stored value, or none for an absent key |
| Browser.BrowserWindow.SetItem | src/services/auth.service.ts:63-65 | `localStorage.setItem`: the key gets the value, every other key and the location are kept |
| Browser.BrowserWindow.RemoveItem | src/services/auth.service.ts:48-51 | `localStorage.removeItem`: only that key is removed and the location is kept |
| Browser.BrowserWindow.Assign | src/services/api.service.ts:55 | `window.location.href = …`: the location changes and storage is kept |
| ApiService.Authorize | src/services/api.service.ts:25-29 | with a non-empty stored `auth_token` the Authorization header becomes "Bearer " + token and nothing else changes; otherwise the request is untouched |
| ApiService.AuthFailureEffect | src/services/api.service.ts:49-55 | on 401/403, `auth_token` and `user` are removed, every other key keeps its value, and the location becomes /login |
| ApiService.OtherErrorsChangeNothing | src/services/api.service.ts:45-80 | other statuses and errors without a response leave storage and location unchanged |
| ApiService.ApiClient.InterceptRequest | src/services/api.service.ts:22-34 | the outgoing request is the stored token's authorization of the request |
| ApiService.ApiClient.InterceptResponse | src/services/api.service.ts:39-82 | a success passes through and an error is rejected again unchanged; storage and location change only as the 401/403 policy says |
| SessionStore.LoginStartsSession | src/services/auth.service.ts:14-26 | after a login with a non-empty token, `getToken` returns it, `isAuthenticated` holds and `getCurrentUser` returns exactly the response's id, username, email and role |
| SessionStore.LoginWithoutTokenKeepsStorage | src/services/auth.service.ts:16-25 | a response without a token leaves storage unchanged |
| SessionStore.LogoutEndsSession | src/services/auth.service.ts:48-51 | after logout no token, no user and no authentication can be read back |
| SessionStore.LogoutIdempotentAndLocal | src/services/auth.service.ts:48-51 | logout twice equals logout once, and every key other than `auth_token` and `auth_user` keeps its value |
| SessionStore.EmptyTokenIsNotAuthenticated | src/services/auth.service.ts:92-94 | a stored empty token does not authenticate |
| SessionStore.RequestAfterLoginCarriesToken | src/services/auth.service.ts:63-65 | the key `setToken` writes is the key the request interceptor reads, so a request after a login carries "Bearer " + the new token |
| SessionStore.AuthFailureKeepsUserSnapshot | src/services/api.service.ts:49-55 | after a 401/403 no token is stored and the store is not authenticated, yet the user snapshot reads back as before |
| SessionStore.AuthService.Login | src/services/auth.service.ts:14-26 | the response is returned verbatim; storage becomes the session written from it (or the interceptor's clean-up on error) |
| SessionStore.AuthService.Register | src/services/auth.service.ts:31-43 | exactly the same result and storage effect as login |
| SessionStore.AuthService.StoreResponse | src/services/auth.service.ts:16-24 | token and snapshot are written only when the response carries a non-empty token |
| SessionStore.AuthService.Logout | src/services/auth.service.ts:48-51 | removes exactly the two session keys and nothing else |
| SessionStore.AuthService.GetToken | src/services/auth.service.ts:56-58 | returns the value under `auth_token`, or none |
| SessionStore.AuthService.SetToken | src/services/auth.service.ts:63-65 | stores the token under `auth_token` |
| SessionStore.AuthService.GetCurrentUser | src/services/auth.service.ts:70-80 | returns the decoded snapshot, or none when the key is absent, empty or does not decode |
| SessionStore.AuthService.SetUser | src/services/auth.service.ts:85-87 | stores the user's text under `auth_user` |
| SessionStore.AuthService.IsAuthenticated | src/services/auth.service.ts:92-94 | true iff a non-empty token is stored |
| AuthContext.UseAuth | src/context/AuthContext.tsx:17-23 | the context value is returned when present; otherwise the "useAuth must be used within an AuthProvider" error |
| AuthContext.SignedIn | src/context/AuthContext.tsx:79 | signed in iff a user is held and `getToken` returns a non-empty token |
| AuthContext.LoginSignsIn | src/context/AuthContext.tsx:44-50 | after a login with a token the context is authenticated as exactly the response's identity, and a restart restores that identity |
| AuthContext.LoginWithoutTokenSignedInOnlyByOldToken | src/context/AuthContext.tsx:79 | after a login without a token the context is authenticated iff a token was already stored |
| AuthContext.AuthFailureSignsOut | src/context/AuthContext.tsx:79 | after a 401/403 the context is not authenticated, whatever user it holds |
| AuthContext.AuthProvider.constructor | src/context/AuthContext.tsx:30-31 | initially no user and loading |
| AuthContext.AuthProvider.Init | src/context/AuthContext.tsx:33-40 | the user is restored only when a decodable snapshot and a non-empty token are stored; loading becomes false |
| AuthContext.AuthProvider.Login | src/context/AuthContext.tsx:42-55 | on success the user is the response's identity even without a token; on failure the same error is rethrown and the user is unchanged |
| AuthContext.AuthProvider.Register | src/context/AuthContext.tsx:57-70 | the same contract as login |
| AuthContext.AuthProvider.IsAuthenticated | src/context/AuthContext.tsx:79 | true iff the provider holds a user and a non-empty token is stored; a token alone is not enough |
| AuthContext.AuthProvider.Logout | src/context/AuthContext.tsx:72-75 | the user is none, exactly the session keys are removed, the location is kept and the context is not authenticated |
| LinkForm.TitleErrors | src/pages/links/LinkForm.tsx:125-128 | the title is accepted iff its length is between 1 and 255; an empty title reports only "required" |
| LinkForm.UrlErrors | src/pages/links/LinkForm.tsx:141-147 | the url is accepted iff it is non-empty, well-formed and at most 2048 characters |
| LinkForm.DescriptionErrors | src/pages/links/LinkForm.tsx:160-162 | the description is accepted iff it has at most 5000 characters, empty included |
| LinkForm.CategoryErrors | src/pages/links/LinkForm.tsx:175-178 | the category is accepted iff its length is between 1 and 100 |
| LinkForm.FormErrors | src/pages/links/LinkForm.tsx:122-178 | the form reports no message iff every field rule holds |
| LinkForm.IsEditMode | src/pages/links/LinkForm.tsx:20 | edit mode needs a route id, and a present id gives edit mode iff it is not empty |
| LinkForm.SubmitCall | src/pages/links/LinkForm.tsx:66-84 | update with the route id iff in edit mode (non-empty id), create otherwise, with the values unchanged |
| LinkForm.LinkFormPage.constructor | src/pages/links/LinkForm.tsx:16-20 | the form starts not submitting, with no calls made |
| LinkForm.LinkFormPage.HandleSubmit | src/pages/links/LinkForm.tsx:63-90 | exactly one create or update call; navigation to /links only on success; the error toast carries the server message; submitting ends false |
| LinkForm.LinkFormPage.Submit | src/pages/links/LinkForm.tsx:115-121 | an invalid form makes no call and changes nothing; a valid one behaves as the submit handler |
| Register.UsernameErrors | src/pages/auth/Register.tsx:54-57 | the username is accepted iff its length is between 3 and 50 |
| Register.EmailErrors | src/pages/auth/Register.tsx:69-72 | the e-mail is accepted iff it is non-empty and well-formed |
| Register.PasswordErrors | src/pages/auth/Register.tsx:84-87 | the password is accepted iff it has at least 6 characters |
| Register.ConfirmErrors | src/pages/auth/Register.tsx:100-109 | the custom validator alone passes an empty value or a copy of the password; with the required rule, the confirmation is accepted iff it is a non-empty copy of the password |
| Register.FormErrors | src/pages/auth/Register.tsx:52-110 | the form reports no message iff every field rule holds |
| Register.FailureMessage | src/pages/auth/Register.tsx:23 | the error text is the server's non-empty message, else "Registration failed. Please try again." |
| Register.RegisterPage.constructor | src/pages/auth/Register.tsx:14 | the page starts not loading |
| Register.RegisterPage.HandleSubmit | src/pages/auth/Register.tsx:16-27 | navigation to / only after a successful registration; the failure toast uses the failure message; loading ends false; the context's user, its loading flag, storage and location change exactly as its register says, a 401/403 sending the browser to /login |
| Register.RegisterPage.Submit | src/pages/auth/Register.tsx:45-51 | an invalid form changes nothing, neither the page, the context, storage nor location; a valid one behaves as the submit handler |

## Left out

- HTTP transport: the axios instance, its base URL and 10-second timeout, and the pass-through methods of `src/services/link.service.ts` are network I/O. Every server answer, a timeout included, is a method parameter.
- The request interceptor's error handler only re-rejects its error. It has no effect to model.
- Endpoint paths (`/api/auth/login`, `/api/auth/register`, `/api/links…`) are not modelled. The login and register requests are accepted as parameters but the server's answer is an input.
- The table's own category column filter (`filters`/`onFilter`, `src/pages/links/LinkList.tsx:151-152`) narrows the rows shown further. It is state of the table widget, so it is not modelled.
- Table sorting by `localeCompare` and by parsed dates depends on locale and date parsing. Page slicing is done by the table library, so only its page-size configuration is modelled.
- Lower-casing covers ASCII letters only; Unicode case mapping is not modelled.
- `JSON.stringify`/`JSON.parse` of the user snapshot are replaced by `UserCodec`, a length-prefixed text form with a proved round trip. Text that is valid JSON but not a user object (for example `5`) makes `JSON.parse` return a non-user value. The model reads it as no user. JSON written by some other program is not read back by the model either.
- `window.open`, `console.error` and the toast library are not modelled. Toast texts and `navigate` targets are recorded as fields.
- async/await: each handler is one sequential step. React re-runs the list page's filter effect after a state change; the model runs it at the end of each handler. The brief `loading = true` state is visible only inside a handler.
- Link deletion and the detail modal (`src/pages/links/LinkList.tsx:87-115`) are not modelled. Deletion is a link-service call followed by `fetchLinks`, and the modal is presentation.
- The edit form's pre-fill (`fetchLink`, `src/pages/links/LinkForm.tsx:43-61`) and its fixed list of category options are not modelled. They populate widgets.
- Input `maxLength` attributes, which stop typing beyond a length, are not modelled; the form's validation rules are.
- The library's URL and e-mail format checks are function parameters (`isUrl`, `isEmail`).
- Register.RegisterPage.Submit: the form library also passes `confirmPassword` to `register`; the model passes only username, e-mail and password.
- `src/pages/auth/Login.tsx`, the layout components, the delete-confirmation modal and the route table are presentation or routing. `ProtectedRoute` is not modelled.
