# Admin console client state, modelled in Dafny

This project models the client-side logic of a Vue admin console that talks to a REST
backend. Four pieces are covered:

- **Article list state** (`useArticles`): the page cursor (`nextPage`, `prevPage`,
  `goToPage`), the multi-tag fetch that merges per-tag result pages and drops duplicate
  ids with JavaScript `Map` semantics, the removal done by `deleteArticle`, and
  `generateSlug` with its random part given as a parameter.
- **Tag list** (`useTags`): `transformTags`, which resolves each `parentId` to the
  parent's name, and the updates of `rawTags`/`tags` by fetch, create, update and delete.
- **Token store** (`useAuth`): one cookie jar shared by the whole page, and one
  `Session` per `useAuth()` call with its own `accessToken`/`refreshToken` refs. The
  model covers `setTokens`, `clearTokens`, and the `watchEffect` step that copies the
  cookies into the refs.
- **Bearer-token interceptors** (`setupAxios`): the request side attaches
  `Authorization: Bearer <token>`, the bearer form of section 2.1 of RFC 6750. The
  response side handles a 401 with the per-config `_retry` flag, a refresh call, a
  clear-then-set of the tokens, and one re-issue. `logout` is modelled here as well,
  because its POST goes through the same client.

Server replies are inputs. Each list call gets a reply value. The HTTP client reads
from a script of replies, one per request sent, and an exhausted script means no
answer. Each part is written in the form the source has. Pure expressions become
functions with lemmas. Refs that are updated in place become class fields. These
methods are proved against the functions: `ApiClient.Send` is proved equal to the pure
state machine `Run`, and the properties of one request are lemmas about `Run`.

Files: `seqs.dfy` (shared `filter`/`findIndex`), `articles.dfy`, `slug.dfy`,
`tags.dfy`, `auth.dfy`, `http.dfy`.

Three properties of the code that a reader might not expect:

- The `_retry` flag bounds re-issues per config, not per logical request. The refresh
  POST goes through the same client with a fresh config that has no `_retry`, so a
  401 on it starts another refresh. `Http.RefreshChain` proves that n 401 replies in a
  row cause n nested refresh calls for one request. The chain stops only when the
  server stops answering 401.
- `createTag`, `updateTag` and `deleteTag` rethrow the original error
  (src/composables/useTags.ts:56, 71, 82), while `deleteArticle` throws a generic one
  (src/composables/useArticles.ts:228). The model does the same.
- Nothing keeps the two tokens both present or both absent: the reconcile step copies
  each cookie on its own.

## Model

| member | source | states |
|---|---|---|
| `Articles.ArticleList.constructor` | src/composables/useArticles.ts:81-87 | a new list is empty, on page 1 of 1, with 0 items, 10 per page, not loading, no error |
| `Articles.ArticleList.NextPage` | src/composables/useArticles.ts:155-161 | moves iff `currentPage < totalPages`, by exactly one; otherwise nothing changes; `1 <= currentPage <= totalPages` is preserved |
| `Articles.ArticleList.PrevPage` | src/composables/useArticles.ts:163-169 | moves iff `currentPage > 1`, by exactly one; otherwise nothing changes; the range invariant is preserved |
| `Articles.ArticleList.GoToPage` | src/composables/useArticles.ts:171-177 | sets `currentPage := p` iff `1 <= p <= totalPages`; otherwise nothing changes; the range invariant is preserved |
| `Articles.ArticleList.FetchArticles` | src/composables/useArticles.ts:89-153 | when every call succeeds, the list is the deduplicated concatenation (or the single page without tags), the pagination comes from the last reply, and `totalItems` is 0. At the first failure the list is unchanged, `error` is set, and the pagination is whatever the earlier replies wrote. `loading` ends false |
| `Articles.Upsert` | src/composables/useArticles.ts:122 | `Map.set` grows the list by at most one entry; what it does with a present or a new id is stated by the four lemmas below |
| `Articles.UpsertInPlace` | src/composables/useArticles.ts:122 | `Map.set` with an id already present: the entry keeps its place and takes the new article; no other entry changes |
| `Articles.UpsertAppends` | src/composables/useArticles.ts:122 | `Map.set` with a new id appends the article at the end |
| `Articles.UpsertIds` | src/composables/useArticles.ts:122 | after `Map.set` the keys are the old keys plus the new id |
| `Articles.UpsertDistinct` | src/composables/useArticles.ts:122 | `Map.set` keeps the keys distinct |
| `Articles.Dedupe` | src/composables/useArticles.ts:122-123 | the merged list is never longer than its input and is non-empty when the input is; its contents are pinned down by the four lemmas below |
| `Articles.DedupeDistinct` | src/composables/useArticles.ts:122-123 | the merged list has pairwise distinct ids |
| `Articles.DedupeIds` | src/composables/useArticles.ts:114-123 | the merged list holds exactly the ids of the concatenated replies |
| `Articles.DedupeKeepsLast` | src/composables/useArticles.ts:122-123 | each merged article is the last article of the input with its id |
| `Articles.DedupeFirstOrder` | src/composables/useArticles.ts:122-123 | the merged articles are ordered by the first position of their id in the input |
| `Articles.IndexOfId` | src/composables/useArticles.ts:122 | first position of an id, or -1 when no article has it |
| `Articles.IndexOfIdFound` | src/composables/useArticles.ts:122 | the position is -1 exactly when the id is not among the list's ids |
| `Articles.ArticleList.GetArticleBySlug` | src/composables/useArticles.ts:179-192 | the article is returned when the call succeeds and `null` when it fails, with no throw; `error` ends reset on success (clearing an earlier list error) and set on failure; `loading` ends false; the list and the page refs are untouched |
| `Articles.ArticleList.DeleteArticle` | src/composables/useArticles.ts:222-230 | on success the articles with that slug are removed; on failure the list is unchanged and a generic error is thrown |
| `Articles.WithoutSlug` | src/composables/useArticles.ts:225 | the result is no longer than the list and holds no article with that slug |
| `Articles.WithoutSlugExact` | src/composables/useArticles.ts:225 | an article stays after removal iff it was in the list and has another slug |
| `Articles.WithoutSlugKeepsOrder` | src/composables/useArticles.ts:225 | removal distributes over concatenation, so the kept articles stay in order |
| `Slug.RandomSuffix` | src/composables/useArticles.ts:266-269 | the suffix has at most 5 lower-case ASCII letters and is a prefix of the letters of the random text (all of them when there are fewer than 5) |
| `Slug.Lower` | src/composables/useArticles.ts:271 | same length, and no `A`-`Z` is left |
| `Slug.LowerLetters` | src/composables/useArticles.ts:271 | each `A`-`Z` becomes the lower-case letter at the same alphabet position; every other character is unchanged |
| `Slug.Hyphenate` | src/composables/useArticles.ts:274 | the result is never longer than the input |
| `Slug.HyphenateAlphabet` | src/composables/useArticles.ts:274 | the result has no white space; each character is a hyphen or comes from the input |
| `Slug.RunBecomesHyphen` | src/composables/useArticles.ts:274 | a maximal run of white space, of any length and anywhere in the text, becomes exactly one hyphen and the text on either side is hyphenated on its own, so `"x y"` becomes `"x-y"` |
| `Slug.RestPrefix` | src/composables/useArticles.ts:274 | text that ends in a non-space closes any run, so hyphenation splits after it |
| `Slug.HyphenateNoSpaces` | src/composables/useArticles.ts:274 | text without white space is left as it is |
| `Slug.HyphenateAppend` | src/composables/useArticles.ts:274 | white-space runs do not cross a boundary followed by a non-space, so hyphenation distributes over such a concatenation |
| `Slug.Slugify` | src/composables/useArticles.ts:270-275 | the slug is never longer than the text it is made from |
| `Slug.GenerateSlug` | src/composables/useArticles.ts:265-277 | the slug is at most six characters longer than the title |
| `Slug.SlugifyAlphabet` | src/composables/useArticles.ts:270-275 | a slug consists only of `[a-z0-9_-]` and has no white space |
| `Slug.SlugifyAppendSlugText` | src/composables/useArticles.ts:270-275 | slug text appended to any title comes out unchanged after the slugified title |
| `Slug.SlugEndsWithSuffix` | src/composables/useArticles.ts:265-277 | `generateSlug(title)` is the slugified title, then `-`, then the random suffix |
| `Slug.SlugifyFixesSlugText` | src/composables/useArticles.ts:270-275 | text made of slug characters passes the pipeline unchanged |
| `Slug.SlugOfSlug` | src/composables/useArticles.ts:265-277 | generating from a generated slug keeps it whole and adds one more suffix |
| `Tags.TransformTags` | src/composables/useTags.ts:26-33 | same length and order; each output has the `id`, `name` and `createdAt` of the input at its index |
| `Tags.TransformParentIsFirstMatch` | src/composables/useTags.ts:30 | in both directions: the parent is name `n` iff `parentId` is non-empty and the first tag with that id has the non-empty name `n` |
| `Tags.ParentName` | src/composables/useTags.ts:30 | a parent name is given only for a non-empty `parentId`, is non-empty, and is the name of some tag with that id |
| `Tags.TransformParentUnset` | src/composables/useTags.ts:30 | a null or empty `parentId` gives a null parent |
| `Tags.IndexOfId` | src/composables/useTags.ts:63 | `findIndex`: the first index with the id, or -1 when no entry has it |
| `Tags.WithoutId` | src/composables/useTags.ts:78 | the result is no longer than the list and holds no entry with that id |
| `Tags.WithoutIdExact` | src/composables/useTags.ts:78 | an entry stays after deletion iff it has another id, and the kept entries stay in order |
| `Tags.RenameReachesChildren` | src/composables/useTags.ts:63-66 | replacing a tag in place with a new name renames the parent of every tag that points at it |
| `Tags.DeleteOrphansChildren` | src/composables/useTags.ts:78-79 | after a deletion, tags that pointed at the deleted id have no parent |
| `Tags.TagStore.constructor` | src/composables/useTags.ts:19-24 | a new store is empty and consistent |
| `Tags.TagStore.FetchTags` | src/composables/useTags.ts:35-46 | on success `rawTags` is the reply and `tags` is its transform; on failure `error` is set and both lists are unchanged; `loading` ends false |
| `Tags.TagStore.CreateTag` | src/composables/useTags.ts:48-58 | on success the server's tag is appended and `tags` is recomputed; on failure `error` is set, the lists are unchanged and the same error is returned |
| `Tags.TagStore.UpdateTag` | src/composables/useTags.ts:60-73 | only the first entry with the id is replaced and `tags` is recomputed; with no match neither list changes; on failure `error` is set and the same error is returned |
| `Tags.TagStore.DeleteTag` | src/composables/useTags.ts:75-84 | on success every entry with the id is removed and `tags` is recomputed; on failure `error` is set and the same error is returned |
| `Auth.Read` | src/composables/useAuth.ts:11-12 | a missing cookie reads as `undefined`; a present one reads as its text |
| `Auth.StoreTokens` | src/composables/useAuth.ts:16-28 | both token cookies are present afterwards; no other cookie is added, removed or changed |
| `Auth.RemoveTokens` | src/composables/useAuth.ts:37-38 | both token cookies are gone afterwards; every other cookie is kept unchanged |
| `Auth.StoreThenRead` | src/composables/useAuth.ts:14-28 | after storing, each token cookie reads back its value; the access cookie has max-age 3600 and the refresh cookie 604800, both with path `/`, secure and same-site strict; other cookies are untouched |
| `Auth.StoreOverwrites` | src/composables/useAuth.ts:16-28 | the last `setTokens` wins |
| `Auth.RemoveIdempotent` | src/composables/useAuth.ts:35-42 | clearing twice equals clearing once; clearing undoes a store; both cookies then read `undefined` |
| `Auth.Session.constructor` | src/composables/useAuth.ts:11-12 | a new instance's refs equal the current cookie values |
| `Auth.Session.SetTokens` | src/composables/useAuth.ts:14-33 | both cookies are stored with their options and both refs take the new values |
| `Auth.Session.ClearTokens` | src/composables/useAuth.ts:35-42 | both cookies are removed and both refs are `null` |
| `Auth.Session.Reconcile` | src/composables/useAuth.ts:60-71 | afterwards the refs equal the cookies; it reports a change iff a ref differed, so a second run changes nothing |
| `Auth.MirrorsFollowTheJar` | src/composables/useAuth.ts:10-12 | two instances over one jar: between a write through one and the other's next reconcile, the other still holds the cookies as they were before the write; the reconcile brings it to the written values |
| `Auth.ReconcileAfterClear` | src/composables/useAuth.ts:35-71 | after `clearTokens` the next reconcile turns the `null` refs into `undefined`, and neither is truthy |
| `Http.Attach` | src/plugins/axios.ts:19-24 | `Authorization` becomes `Bearer <token>` iff the access ref is truthy; nothing else in the config changes |
| `Http.BearerRoundTrip` | src/plugins/axios.ts:21 | the token can be read back out of the header |
| `Http.Run` | src/plugins/axios.ts:29-57 | each request consumes at most the remaining replies and appends to the sent requests and the navigations, never rewriting earlier entries |
| `Http.SuccessPassesThrough` | src/plugins/axios.ts:30 | a 2xx reply resolves unchanged, with no effect on the session |
| `Http.OtherFailureRejectsOriginal` | src/plugins/axios.ts:34-55 | a non-401 failure, or a 401 on a config already marked `_retry`, rejects with the original error, with no refresh call and no token change |
| `Http.UnauthorizedWithoutRefreshToken` | src/plugins/axios.ts:34-55 | a 401 without a refresh token rejects with the original error, whose config is already marked `_retry`, and there is no refresh call |
| `Http.RefreshThenReissueOnce` | src/plugins/axios.ts:34-46 | after a successful refresh, the refresh POST carried the token, the tokens were cleared and then set, and the config is re-issued exactly once with `_retry` and the new bearer header (`Bearer undefined` when the reply has no access token). The re-issue's result is final: no failure on it, a 5xx or no answer included, clears the tokens or redirects |
| `Http.RefreshFailureRedirects` | src/plugins/axios.ts:47-51 | a failed refresh clears the tokens, pushes `/login` and rejects with the refresh error |
| `Http.RefreshRejectedStep` | src/plugins/axios.ts:47-51 | whatever the refresh call is rejected with, the request is rejected with that error, the refresh call's tokens are cleared and `/login` is pushed last |
| `Http.RefreshResolvedStep` | src/plugins/axios.ts:38-45 | whenever the refresh call resolves, even after nested refreshes of its own, the request's outcome is that of one re-issue of its config marked `_retry` with the new bearer, after the tokens from the refresh body have replaced the cleared ones |
| `Http.RefreshChain` | src/plugins/axios.ts:34-51 | the retry bound is per config: n 401 replies in a row cause n nested refresh calls and n redirects for a single request |
| `Http.ApiClient.Send` | src/plugins/axios.ts:18-57 | the client's result and new state are exactly those of `Run` |
| `Http.ApiClient.Logout` | src/composables/useAuth.ts:44-58 | the logout POST goes out only with a truthy refresh ref, and its outcome is swallowed; the caller's refs end `null` and both cookies are gone. When the caller is another instance, the interceptor's own refs stay as the logout request left them, so it keeps the old bearer until it reconciles |

## Left out

- Real HTTP, axios internals, the 10 s timeout and the base URL: the server is a script of replies, and a missing reply stands for a network failure or timeout.
- Concurrency: several requests in flight that each get a 401, cross-tab cookie writes, and when the `watchEffect` runs. The reconcile step is an explicit call.
- The response envelope check and toasts in `apiRequest`: each list or tag call either delivers its data or throws.
- `createArticle`, `updateArticle` and `manageRelatedEntity` return the server's data or throw a generic error, and `unlinkRelatedEntity` returns nothing or throws one. None of them touches a ref of the list, so the model has no member for them.
- The request bodies of `createTag` and `updateTag` are not modelled: the lists take the server's reply, not the payload.
- Slug.Lower: lower-cases only ASCII `A`-`Z`. Unicode case mapping and the NFD decomposition are not modelled. Pre-composed accented letters are removed by the last filter rather than becoming their base letter. Combining marks already in the title are stripped, as in the source.
- Slug.RandomSuffix: takes the text of `Math.random().toString(36)` as a parameter, not a random number.
- Auth.Read: the cookie library's JSON parsing of values read back is not modelled. A value is read back as the text it was written with, so an `undefined` token is written and read as the text `undefined`.
- Http.Run: only the string fields of a reply body are modelled. A 2xx refresh reply without token fields gives `undefined` refs.
- Routing: `router.push('/login')` is recorded as a navigation. The route guard and the redirect to a route that is already current are not modelled.
- Http.Run: assumes the interceptors hold a working router. `setupAxios()` is called at the top level of src/main.ts:32, before `app.use(router)` and outside any component's setup, so `useRouter()` at src/plugins/axios.ts:15 most likely yields `undefined`. Then `router.push('/login')` at line 49 would throw a `TypeError` after `clearTokens()`, and the request would be rejected with that error instead of the refresh error, with no navigation. The model does not capture this; it records the navigation and rejects with the refresh error.
- Auth.RemoveTokens: removes a cookie by name alone. `cookies.remove(KEY)` at src/composables/useAuth.ts:37-38 passes no path, while the cookies were set with path `/`. Under section 5.1.4 of RFC 6265, a removal without a path applies to the current page's directory, so on a nested route such as `/articles/news` the `/` cookies would survive, and the next reconcile would copy the old tokens back into the refs. The model's name-keyed jar removes the cookies on every page, so `RemoveIdempotent`, `Session.ClearTokens` and `ApiClient.Logout` promise removal only under that abstraction.
- Page numbers are integers. JavaScript numbers are doubles, and non-integral values from the server are not modelled.
- Messages are abstract values. Console logging is not modelled.
