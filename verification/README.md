# Apsara Bazaar feed and media core, modelled in Dafny

Apsara Bazaar is a post-sharing site whose images live on Telegram. Each
stored image record holds an opaque `fileId` handle and, once resolved, a
`filePath` on the Telegram file server. This project models the core of the
server as pure functions over immutable data:

- resolving a handle to a file path, with bounded retries;
- grouping image records by post and building each image's `src` (the
  Telegram download URL, or a local proxy route when no path is known);
- the in-memory feed caches (`latest`, one entry per declared tag, and the
  derived `Hot`, `Top` and `Rising` rankings), their refresh cycle with its
  partial failures, and the `/api/posts` read path that serves cache hits;
- likes (with the 4000-entry cap), comments and replies, and the liked-posts
  page of a user;
- the three image-serving endpoints and their content-type rules;
- e-mail OTP sign-up and password login;
- the admin bot: the admin gate, cutting an uploaded HTML export into
  articles, extracting each article's media URL and title, the `article_N`
  store, and the "Post" button;
- the active-user table, the sitemap, and the room filter of the chat lobby;
- the browser helpers: carousel steps, the image counter, `timeAgo` and the
  share URL;
- the Post, User and Image schemas (required fields, defaults, the Gmail
  validator).

Every external party is a parameter. The database is a `seq` or `map` of
records. A Telegram call is an `Attempt` (success with a value, or failure
with an error code and description). A sequence of calls is a function
`nat -> Attempt<T>` giving the outcome of the k-th call. The feed handlers
resolve each handle with the retry model of `getTelegramFilePath`, against
the service's answers for that handle. `Math.random`,
`Date.now()` and whether mail sending works are arguments. Delays are
recorded as numbers instead of being slept.

The modules follow the program's structure:

| module | file | what it holds |
|---|---|---|
| `Common`, `Strings` | common.dfy, strings.dfy | `Option`/`Result`, JavaScript truthiness, decimal text of numbers |
| `Models` | models.dfy | the three schemas |
| `Retry` | retry.dfy | `getTelegramFilePath` and `fetchWithRetry` |
| `Ranking` | ranking.dfy | find / sort by one key descending / skip / limit |
| `Media` | media.dfy | image views, grouping by post, the details and profile variants |
| `FeedCache` | feedcache.dfy | the caches, their refresh, `/api/posts` |
| `Engagement` | engagement.dfy | likes, comments, replies |
| `LikedPosts` | likedposts.dfy | `/user/liked-posts` |
| `ImageRoutes` | imageroutes.dfy | the three `/images/:fileId` endpoints |
| `Auth` | auth.dfy | `generateOtp`, `/send-otp`, `/verify-otp`, `/login` |
| `Bot` | bot.dfy | the admin bot |
| `Activity` | activity.dfy | the active-user table |
| `Chats` | chats.dfy | the room list of `/chats` |
| `Sitemap` | sitemap.dfy | `/sitemap.xml` |
| `Client` | client.dfy | the browser helpers |

Behaviours of the code the model keeps:

- `getTelegramFilePath` retries on every error; no error is treated as final.
- Sorting has no tie-break, so the order of posts with equal keys is left
  open. The contracts state that a page is the `[skip, skip+limit)` window
  of some sorted ordering of the candidates, with its exact length, drawn
  from the candidates without duplication, and that no post left out of a
  first page ranks above one that was kept. Consecutive pages are proved to
  fit together only when no two candidates share a key; with tied keys two
  separate queries may order the tied posts differently, so one post can
  appear on two pages while another appears on none.
- The feed variant of the image mapping replaces a stored file path with the
  fresh result, which is null after failed retries. So a stored path is not
  used as a fallback there. The post-details variant keeps the stored path
  when its single call fails.
- `/api/images/:fileId` in server.js always re-resolves, even when a path is
  stored.

The copies of `getTelegramFilePath` and `mapImagesByPostIdAsync` in
routes/user.js:239-295 have the same logic as those in server.js. The same
holds for `fetchWithRetry` in server.js:365-388 and routes/user.js:35-70
(only the timeout differs). Each pair is modelled once.

## Model

| member | source | states |
|---|---|---|
| Models.NewPost | models/Post.js:4-37 | creation succeeds iff title, bodyText and author are non-empty; a failure names exactly the missing fields; the stored post has the given id and keeps the given title, bodyText and author; each optional field keeps its given value, and otherwise uploadTime defaults to the creation time, status to "Ok", likes and comments to 0, tags to [] |
| Models.PostDefaults | models/Post.js:17-36 | a post given only title, body and author gets every default value |
| Models.NewUser | models/User.js:3-18 | creation succeeds iff name, username, password and rank are non-empty and the e-mail is present and ends in "@gmail.com"; a failure names exactly the failing fields; the stored user keeps the given name, username, e-mail, password and rank; rooms and likes keep the given values and otherwise default to "" and [] |
| Models.NewImage | models/Image.js:3-8 | creation succeeds iff postId and fileId are non-empty; postId, fileId, filePath and caption are kept as given, the last two possibly absent |
| Models.UnresolvedImageAccepted | models/Image.js:6-7 | an image record without file path or caption is accepted |
| Retry.ResolveFrom | server.js:127-143 | from retry count k: between k+1 and 3 calls; a wait of 1000·(k+j+1) ms before each retry; every call before the last failed; a path comes from the last call's success; null only after the third call failed |
| Retry.GetTelegramFilePathSpec | server.js:123-144 | at most 3 calls; a path iff one of the first 3 calls succeeds, and then it is the first success; null exactly when all 3 fail; waits of 1000, 2000 ms, one after each failure but the last, strictly increasing |
| Retry.FailTwiceThenSucceed | server.js:134-142 | two failures then a success: 3 calls, waits [1000, 2000], and the success's path |
| Retry.FetchFrom | server.js:365-388 | with r retries: 1 to r+1 calls; the fixed delay before each retry; the result is the outcome of the last call made; a failure only after r+1 calls |
| Retry.FetchWithRetrySpec | routes/user.js:35-70 | succeeds iff one of the first r+1 calls succeeds, and returns the first success; otherwise rethrows the error of call r+1; exactly one wait of the fixed delay between consecutive calls |
| Ranking.Sort | server.js:182-186 | the result is sorted descending by the key and is a permutation of the input |
| Ranking.Window | server.js:339-344 | `.skip(s).limit(n)`: element i of the result is element s+i of the input; the length is min(n, len−s), or len−s when n is 0 |
| Ranking.Page | server.js:328-344 | a page of a sorted query is the window [skip, skip+limit) of some descending ordering of the candidates (all of them from skip on when limit is 0): sorted, a sub-multiset of the candidates, and exactly as long as the window allows |
| Ranking.SortedUnique | server.js:328-344 | when no two posts share a key, two descending orderings of the same posts are the same list |
| Ranking.PageUnique | server.js:328-344 | when no two candidates share a key, the sorted query has exactly one answer: any window of a descending ordering equals `Page` |
| Ranking.PagesTile | server.js:328-344 | when no two candidates share a key, any page of n posts at skip followed by any page of m posts at skip+n equals the page of n+m posts at skip, so consecutive pages neither repeat nor skip a post |
| Ranking.TiedPagesMayRepeat | server.js:339-344 | with no tie-break, for two different posts uploaded at the same time the first page of one post and the second page of one post may both hold the same post, so the other is never shown |
| Ranking.PrefixHoldsHighest | server.js:182-186 | the first m posts of a sorted list rank at least as high as every post left out |
| Ranking.TopN | server.js:182-186 | `.sort().limit(n)`: min(n, len) posts, sorted, drawn from the candidates, and no candidate left out ranks above a kept one |
| Ranking.WithTag | server.js:208 | a post is selected iff it is stored and carries the tag; no post is duplicated |
| Ranking.ByAuthor | routes/user.js:80 | a post is selected iff it is stored and written by the author; no post is duplicated |
| Ranking.LatestPosts | server.js:182-186 | `latest`: min(30, len) posts, newest first, and none left out is newer than a kept one |
| Ranking.TagPosts | server.js:208-212 | a tag list: exactly min(10, number of tagged posts) posts, a sub-multiset of the tagged posts, newest first, and no tagged post left out is newer than a kept one |
| Ranking.SpecialPosts | server.js:231-249 | Hot, Rising, Top: min(10, len) posts sorted by likes, comments, or likes+comments, and none left out ranks higher |
| Media.Refreshed | server.js:148-158 | every image's file path is replaced by its fresh resolution outcome, whatever was stored |
| Media.GroupIsByPost | server.js:161-174 | the grouping's keys are exactly the post ids that occur; the list under an id holds the views of that post's images, each once, in input order |
| Media.ViewsOfEmptyWhenAbsent | server.js:192-195 | a post with no image records gets the empty list |
| Media.FeedGroupEntries | server.js:147-177 | the groups of the feed variant are the reference per-post filter of the refreshed images, with `/api/images/<fileId>` as the fallback |
| Media.FeedFallsBackOnFailedResolution | server.js:165-167 | an image whose resolution fails is served through `/api/images/<fileId>`, even if a path was stored |
| Media.Attach | server.js:192-195 | one enriched post per post, in order, each carrying the original post |
| Media.ImagesOfPosts | server.js:188-189 | the `$in` image query returns exactly the stored records owned by one of the posts: each result is such a record, and every such record is returned |
| Media.ImagesOfPostsIsFilter | server.js:188-189 | the `$in` query is the in-order filter of the store: a single record is kept iff one of the posts owns it, and the records kept from two stretches of the store come out one stretch after the other |
| Media.EnrichedImagesAreOwnGroup | server.js:188-195 | each enriched post carries exactly the views of its own images, or [] when it has none |
| Media.Enrich | server.js:188-195 | enrichment keeps the ranked posts and their order, and post i carries the feed views (fresh path or `/api/images/<fileId>`) of exactly its own image records, in store order |
| Media.DetailView | routes/post.js:132-155 | a details image keeps its fileId and caption; its src is the fresh path's URL when the call gives a non-empty path, the stored path's URL when the call fails and a path is stored, else `/post/images/<fileId>` |
| Media.DetailsImages | routes/post.js:149-155 | one details view per image, in input order, each after its own single resolution call |
| Media.RecordsOf | routes/post.js:124-127 | `Image.find({postId})` returns the stored records of that post and all of them |
| Media.PostDetails | routes/post.js:117-174 | 404 iff no post has the id; otherwise the post and, for the i-th record it owns, the details view made from the i-th resolution call |
| Media.ProfileViews | routes/user.js:89-94 | every profile image view points at `/user/images/<fileId>` and keeps fileId and caption |
| Media.ProfileRow | routes/user.js:88-100 | a row keeps its post; a failed image lookup gives it no images, a successful one the profile views of the found records |
| Media.LookupOf | routes/user.js:86-100 | the image query of a post fails exactly for the failing ids, and otherwise returns the post's own records |
| Media.ProfilePosts | routes/user.js:86-101 | one row per post, in order; a row whose image query fails has no images, any other has the profile views of exactly its post's records, in store order |
| Media.ProfileRowsAreOwnRecords | routes/user.js:86-96 | a row whose image query succeeded shows only views of records owned by its post, and a view of every record the post owns |
| Media.AuthorPosts | routes/user.js:80-84 | the author query is the window [skip, skip+limit) of some newest-first ordering of the author's posts: exactly min(limit, n−skip) posts (n−skip when limit is 0), a sub-multiset of the author's posts, newest first |
| Media.UserPosts | routes/user.js:75-109 | `/user/posts`: one row per post of the author query, in its order (so exactly min(limit, n−skip) rows), by the author and newest first; each row has the profile views of its own post's image records, or none when that post's image query fails |
| FeedCache.InitialValid | server.js:109-114 | at start-up every declared tag maps to [] and the cache invariant holds |
| FeedCache.RefreshLatestIsolated | server.js:275-282 | `latest` is replaced iff its own rebuild succeeds, whatever the tag refresh does; a failed rebuild leaves the whole post cache unchanged |
| FeedCache.RefreshTagEntry | server.js:207-225 | a declared tag's entry becomes the fresh list iff its own rebuild succeeds; a sibling tag's failure does not stop it; a failed rebuild keeps the old entry |
| FeedCache.RefreshDerivedEntry | server.js:227-271 | Hot, Top or Rising is replaced iff no regular tag rebuild threw and its own rebuild succeeded; otherwise its old entry is kept |
| FeedCache.RefreshLeavesOtherKeys | server.js:205-272 | a refresh writes no tag-cache key outside the declared tags and the three derived rankings |
| FeedCache.RebuiltTagRanked | server.js:208-223 | a rebuilt tag entry has at most 10 posts, newest first, all carrying the tag |
| FeedCache.RebuiltDerivedRanked | server.js:229-262 | a rebuilt derived entry has at most 10 posts sorted by its own key |
| FeedCache.TagEntryValidAfter | server.js:207-225 | after any refresh a declared tag's entry satisfies the tag part of the invariant |
| FeedCache.DerivedEntryValidAfter | server.js:227-264 | after any refresh a derived entry satisfies its part of the invariant |
| FeedCache.RefreshPreservesValid | server.js:180-282 | whatever subset of rebuilds fails, a refresh keeps the invariant: `latest` ≤ 30 newest first, tags ≤ 10 newest first and tagged, derived ≤ 10 sorted by their keys |
| FeedCache.LiveCandidates | server.js:307-337 | the live query ranks only stored posts, and only tagged ones for a regular tag |
| FeedCache.LivePage | server.js:307-345 | the `Top` aggregation with limit 0 is rejected; otherwise the live query is the window [skip, skip+limit) of some ordering of the candidates by the tag's key (upload time, likes, comments or likes+comments), exactly min(limit, n−skip) long (n−skip when limit is 0), drawn from the store, and tagged when the tag is a regular one |
| FeedCache.LivePagesTile | server.js:307-345 | when no two candidates share the tag's key, any two consecutive pages the store may answer join into the live page spanning both |
| FeedCache.LiveReply | server.js:347-357 | the enriched live page keeps those properties, and is absent exactly when the store rejects the query |
| FeedCache.ApiPosts | server.js:288-361 | an absent `skip` reads as 0 and an absent `limit` as 10; key `tag || 'latest'`; a cached list of at least skip+limit entries answers exactly its slice [skip, skip+limit); otherwise the store answers, a store failure or the rejected `Top` aggregation with limit 0 gives 500, and the cache is not written |
| FeedCache.TopWithoutLimitPastCacheFails | server.js:309-316 | `?tag=Top&limit=0` with skip past the cached `Top` list answers 500 |
| FeedCache.CacheHitIgnoresStore | server.js:298-305 | a cache hit gives the same reply for any store, reachable or not |
| FeedCache.LatestThirdPageFromCache | server.js:290-304 | with 30 cached `latest` posts, `?skip=20` with the default limit answers cached entries 20 to 29 |
| FeedCache.BareRequestIsFirstTen | server.js:290-304 | a request with neither skip nor limit, with at least 10 cached `latest` posts, answers the first 10 of them |
| Engagement.KeepLast | server.js:460-465 | `$slice: -n` keeps the last min(len, n) entries |
| Engagement.AddLike | server.js:438-484 | no session gives 401, an unknown post 404, a missing user or a repeated like 400 with nothing changed; otherwise 200: the like is appended and cut to the last 4000, the post's count rises by exactly one, the new count is returned, caches are refreshed, and no other user or post changes |
| Engagement.LikeKeepsListWellFormed | server.js:454-467 | a like list of at most 4000 distinct ids stays so, and after a successful like it ends in the new post id |
| Engagement.IncrementComments | routes/post.js:76 | `$inc: {comments: 1}` raises only that post's count by one; a missing post stays missing |
| Engagement.NewComment | routes/post.js:62-83 | without a session 500 and nothing saved; otherwise the comment is stored under its new id and the post's count rises by one |
| Engagement.AddReply | routes/post.js:85-115 | a missing parent gives 404 and changes nothing; without a session 500; otherwise the reply is appended to the parent and the post's count rises by one |
| Engagement.CommentRaisesCountByOne | routes/post.js:76-108 | each stored comment or reply on an existing post raises its comment count by exactly one |
| Activity.UpdateUserActivity | server.js:635-639 | a non-empty address is stamped with the current time; every other entry is unchanged; an empty address changes nothing |
| Activity.RemoveInactiveUsers | server.js:642-651 | exactly the entries idle for more than 30 minutes are removed; the remaining entries keep their timestamps |
| LikedPosts.ParsedOr | routes/user.js:184-185 | `parseInt(x) \|\| d`: NaN and 0 give the default, any other number is kept |
| LikedPosts.RelativeBound | routes/user.js:202 | a slice bound is clamped to the list, and a negative bound counts from the end |
| LikedPosts.JsSlice | routes/user.js:202 | `slice(a, b)` is the elements between the two relative bounds, empty when they cross |
| LikedPosts.JsSliceNonNegative | routes/user.js:202 | with non-negative bounds the slice is the plain window |
| LikedPosts.Reverse | routes/user.js:199 | element i of the reversal is element len−1−i of the input |
| LikedPosts.InIdOrder | routes/user.js:205-210 | the fetched posts are, one for one, the stored posts at the positions of the ids that have one, in increasing order; when every id is stored, post i is the post of id i |
| LikedPosts.InIdOrderKeepsStoredIds | routes/user.js:205-210 | there is an increasing list of positions covering every id with a stored post whose posts are the result, so no stored id is dropped, moved or repeated and nothing else is added |
| LikedPosts.LikedPostsPage | routes/user.js:176-236 | no session gives a 302 redirect to /auth/login (`redirect` replaces the 401 status set before it), an unknown user 404, no likes the empty list; otherwise the posts of the selected ids in their order, each carrying the views of its own image records (routes/user.js:212-222), the next skip skip+limit, and hasMore iff the list has more than skip+limit likes |
| LikedPosts.SelectedIdsNewestFirst | routes/user.js:199-202 | the page holds the likes from the skip-th most recent on, min(limit, len−skip) of them, and the first page starts with the latest like |
| LikedPosts.DefaultPage | routes/user.js:184-185 | missing or zero query values give skip 0 and limit 10, so the next skip is 10 |
| Auth.GenerateOtp | routes/auth.js:8-10 | for a draw in [0, 1), a 6-digit decimal string without a leading zero, whose value lies in [100000, 999999] |
| Auth.SendOtp | routes/auth.js:20-53 | checks in order: a Gmail address, a new address, a new username; the first failure decides; a mail failure gives 500; success keeps the form with the OTP as the pending user |
| Auth.VerifyOtp | routes/auth.js:56-80 | refused iff nothing is pending, the pending OTP is empty, or the posted OTP differs; otherwise a rank "Fapper" user is created, the session logs that user in and the pending form is dropped; a schema rejection leaves the session unchanged |
| Auth.FindByEmail | routes/auth.js:92 | the first user with the address, or none exactly when no user has it |
| Auth.Login | routes/auth.js:89-103 | "User not found" iff no user has the address; "Invalid Password" when the first such user's password differs; only a full match logs that user in, and the session is otherwise unchanged |
| Auth.SignupThenLogin | routes/auth.js:20-98 | a complete new form passes send-otp, its OTP passes verify-otp, and the new user can log in with the form's address and password |
| Bot.Start | routes/bot.js:25-38 | `/start` welcomes exactly the admins and gives everyone else the permission notice |
| Bot.MediaMatchesAreMediaUrls | routes/bot.js:68-69 | every match of the media pattern has an http or https scheme, URL characters only, a non-empty body after the scheme, and a gif/jpg/jpeg/png/webp/mp4 extension at its end |
| Bot.EmptyBodyIsNoMediaUrl | routes/bot.js:68 | "http://.png", with nothing between scheme and extension, is not a media URL, while "http://a.png" is |
| Bot.NoMatchesIffNoneMatch | routes/bot.js:68-73 | a global match from a position finds nothing exactly when the pattern matches at no position from there on |
| Bot.LastMatchIsFinal | routes/bot.js:68-73 | the last value a non-empty global match returns is the value of a match at some position after whose end the pattern matches nowhere |
| Bot.MediaUrlIsFinalMatch | routes/bot.js:68-70 | the article has no media URL exactly when the URL pattern matches at no position; otherwise its URL is the value of a final URL match |
| Bot.TitleIsFinalMatch | routes/bot.js:72-74 | the title is "N/A" when the label pattern matches at no position; otherwise it is the value of a final label match |
| Bot.LabelMatchesAreLabels | routes/bot.js:72-73 | every captured `aria-label` value is non-empty and free of double quotes |
| Bot.ExtractionShape | routes/bot.js:68-74 | the chosen media URL is a media URL that occurs in the article, absent exactly when the pattern never matches; the title is "N/A" or a captured label |
| Bot.TitleNonEmpty | routes/bot.js:72-74 | an article's title is never empty |
| Bot.StorageKeyInjective | routes/bot.js:80 | different article positions get different `article_N` keys |
| Bot.WrittenKeysOfBatch | routes/bot.js:77-114 | the keys an upload writes are exactly those of its articles that have a media URL |
| Bot.HandleArticles | routes/bot.js:66-121 | one notice per article, in order; each article with a media URL is stored under its key |
| Bot.HandleDocument | routes/bot.js:43-131 | non-admins get the permission notice and nothing changes; an export without articles gives the "No article" notice; otherwise one notice per article, each article with a media URL is stored under `article_<i+1>` with its title, URL and sent file id, entries of earlier uploads under other keys are kept, and titles stay non-empty |
| Bot.HandleCallback | routes/bot.js:133-192 | the storage is a plain object (bot.js:41); a key the storage does not answer gives "Invalid article data." and creates nothing; a name inherited from `Object.prototype` passes the lookup and answers "Failed to create post. Please try again." with nothing created; success is reported iff both the post and its image record were created; the image belongs to the created post; the post carries the stored title; an entry stored without a file id (its photo was never sent) never gets an image record |
| Bot.InheritedNameFailsSchema | routes/bot.js:137-148 | a post built from an inherited name has no title and is rejected by the post schema |
| Bot.CallbackCreatesBotPost | routes/bot.js:142-172 | a remembered article always yields a post with the stored title, the fixed body, author `apsara_bazaar`, tags ["recent", "Bazaar"] and all other defaults; a failed forward leaves the post without an image, and forwarding a stored photo succeeds |
| Chats.Split | server.js:675 | `split(',')` yields at least one piece and no piece contains a comma |
| Chats.JoinSplit | server.js:675 | joining the pieces with commas gives back the original string |
| Chats.SplitJoin | server.js:685 | splitting a join of comma-free codes gives back the codes |
| Chats.KeepExisting | server.js:682 | `filter`: the k-th kept code is the code at the k-th position naming an existing room, so order and repetitions are kept; a code is kept iff it exists; nothing is dropped iff every code exists, and then the list is unchanged |
| Chats.KeepExistingIsFilter | server.js:682 | some increasing choice of positions covering every existing code gives the kept codes one for one |
| Chats.KeepsRepeatsInOrder | server.js:682 | codes "a", "b", "a" with only room "a" existing keep "a", "a" |
| Chats.CleanRooms | server.js:674-687 | an empty room string is left alone; a string whose codes all exist is not rewritten; otherwise it becomes the existing codes joined by commas |
| Chats.CleanRoomsKeepsOnlyExisting | server.js:682-686 | after the cleanup every stored code names an existing room |
| Chats.CleanRoomsIdempotent | server.js:682-686 | running the cleanup again changes nothing |
| Chats.InsertByLatest | server.js:700 | inserting into a newest-first list keeps it newest first and adds exactly the new entry |
| Chats.SortByLatest | server.js:700 | the sort orders by newest message, newest first, and is a permutation |
| Chats.WithMessages | server.js:690-697 | an entry is listed iff it names an existing room that has messages, with that room's newest message time |
| Chats.ListedRoomsMembership | server.js:689-703 | a room is listed iff it exists and has a message; as many rooms are listed as the store returned existing rooms with messages |
| Chats.ListedRoomsNewestFirst | server.js:699-703 | the listed rooms are in order of their newest message, newest first |
| ImageRoutes.ProfileContentType | routes/user.js:137-138 | `image/png` iff the last dot-segment of the path is `png`; `image/jpeg` otherwise |
| ImageRoutes.DetailsContentType | routes/post.js:244-245 | `image/` followed by the extension, with `jpg` written as `jpeg` |
| ImageRoutes.ExtensionAfterLastDot | routes/user.js:137 | the extension of `stem.ext` is `ext` when `ext` has no dot |
| ImageRoutes.ContentTypesOfPath | routes/post.js:244-245 | for a path `stem.ext`, both endpoints' content types as a function of `ext` |
| ImageRoutes.ServeProfileImage | routes/user.js:112-147 | without a bot token 500 and no call; otherwise 200 iff both the resolution and the download succeed within their retries, with the content type of the resolved path; each step makes at most 3 calls; the store is unchanged |
| ImageRoutes.FindByFileId | routes/post.js:218 | the first record with the handle, or none exactly when no record has it |
| ImageRoutes.ServeDetailsImage | routes/post.js:213-266 | an unknown handle gives 404 and no call; a stored path is reused with no resolution call; otherwise one call, whose path is saved onto the record before the download; a failure gives 404 when its description mentions "file not found", else 500 |
| ImageRoutes.ServeApiImage | server.js:392-431 | an unknown handle gives 404 and no call; otherwise the path is always re-resolved with at most 3 calls and saved, a failed resolution gives 500, no download and leaves the store alone; after a resolution the download makes 1 to 3 calls, the reply is 200 with `image/jpeg` iff it succeeds within its retries, and 500 with no type otherwise |
| Client.PrevImage | public/js/posts.js:127-131 | index i steps to i−1 when i > 0 and to n−1 otherwise; an absent index reads as 0 |
| Client.NextImage | public/js/posts.js:159-163 | index i steps to i+1 when i < n−1 and to 0 otherwise |
| Client.StepsStayInRange | public/js/posts.js:127-163 | on a non-empty carousel both steps keep a valid index valid |
| Client.PrevOnEmptyCarousel | public/js/posts.js:127-131 | on an empty carousel the backward step gives index −1, outside the list |
| Client.StepsAreInverse | public/js/posts.js:127-163 | a backward step undoes a forward step and the other way round |
| Client.ForwardWraps | public/js/posts.js:159-163 | k ≤ n forward steps from i land on i+k, wrapped once past the end |
| Client.FullCycle | public/js/posts.js:159-163 | n forward steps return to the starting image |
| Client.CounterTextInjective | public/js/posts.js:179-185 | the counter text "i+1 / n" determines both the position and the total |
| Client.FirstFitting | public/js/posts.js:199-204 | the chosen unit is the first, largest first, that fits at least once, and no earlier unit fits |
| Client.TimeAgoSpec | public/js/posts.js:188-206 | "just now" iff less than 60 whole seconds passed (a future date included); otherwise count ≥ 1 whole units of the largest unit that fits, with count·unit ≤ seconds < (count+1)·unit, and every larger listed unit exceeds the elapsed seconds |
| Client.AgoText | public/js/posts.js:201-205 | the label starts with the count, a space and the unit name, ends in " ago", has the plural "s" right after the name iff the count exceeds 1, and has no other characters (its length is exactly that of these parts); otherwise "just now" |
| Client.AgoTextInjective | public/js/posts.js:201-205 | two labels of positive counts of listed units print the same text only when they are equal |
| Client.TwoHoursAgoText | public/js/posts.js:188-206 | 7200 s ago reads "2 hours ago" |
| Client.OneMinuteAgoText | public/js/posts.js:188-206 | 90 s ago reads "1 minute ago" |
| Client.NinetySecondsAgo | public/js/posts.js:188-206 | 90 s ago reads as one minute |
| Client.TwoHoursAgo | public/js/posts.js:188-206 | 7200 s ago reads as two hours |
| Client.UnderAMinuteIsJustNow | public/js/posts.js:188-206 | 59.999 s ago reads as "just now" |
| Client.ShareUrlIsSitemapLoc | public/js/posts.js:9 | the shared link is the details address the sitemap lists for the post |
| Sitemap.AppendStatics | server.js:588-596 | appending the static blocks yields exactly their rendering, in page order |
| Sitemap.AppendPosts | server.js:598-607 | appending the post blocks yields exactly the rendering of one block per post with an object id, in export order |
| Sitemap.BuildSitemap | server.js:573-617 | the document is the header, the blocks in order, then the closing tag |
| Sitemap.PostEntriesArePosts | server.js:598-607 | one post block per exported post with an object id: each such post is listed, and each listed block belongs to one |
| Sitemap.StaticBlocks | server.js:581-586 | the static blocks are "/", "/about", "/donation", "/contact", all dated 2025-01-01 |
| Sitemap.SitemapStartsWithStaticPages | server.js:581-607 | the sitemap has 4 + (posts with an object id) blocks: the four static pages first, then the post blocks |

## Left out

- Database queries, sessions and the session store are replaced by sequences, maps and `Option` arguments. The behaviour of MongoDB itself (indexes, casting, `lean`) is not modelled.
- Telegram calls (`axios`, `https.get`, `pipeline`, the bot API) are call outcomes given as arguments. Streaming the bytes is reduced to whether the download succeeds. Timeouts are one kind of failure.
- `p-limit`, `Promise.all` and `Promise.allSettled` scheduling, `setInterval` and the `setTimeout` sleeps are left out. The model runs each step in order and records the delays instead of sleeping. This is sound because each step only reads the store and writes its own cache key.
- Socket.io chat and the chat message routes are left out, because they are real-time messaging plumbing. Of `/chats` only the room cleanup and ordering are modelled. The session check, the user lookup and the rendering of the lobby are left out.
- The Playwright `/fetch` command and the commented-out scraping code in the bot are left out, because they are browser automation.
- EJS rendering, redirects to views, multer uploads and the `/post/create` upload loop are left out. So are the GET pages of auth.js (`/signup`, `/login`, `/logout`, `/create-post`), `/user/profile/:username` and `/user/comments`, which only render or list records.
- Mail sending is a boolean argument of `Auth.SendOtp`.
- The browser DOM, clipboard and Web Share code is left out. Only the index, counter, time and URL logic is kept.
- Auth.GenerateOtp: `Math.random()` is a real number in [0, 1), and the arithmetic is exact instead of IEEE double. The draw is an argument.
- Auth.EmailTaken and Auth.UsernameTaken: a `findOne` on an absent field is taken to match no user, since every stored user has both fields.
- Bot.HandleDocument: the source writes an entry without a file id before sending the photo, then adds the file id after sending. The model makes one write of the final entry. Nothing reads the intermediate state while the articles are handled one after another.
- Bot.HandleDocument: the temporary file and the download of the uploaded document are left out. The document's text is an argument, and the outer error path (a failed download) is not modelled.
- The bot's per-article catch (`Error processing Article`) is not modelled. In the model, extracting the URL and title cannot throw.
- Chats.SortByLatest: the order of entries with equal message times is left open. The source's sort keeps them in input order (stable from ES2019 on); the contract does not promise it.
- Ranking.PagesTile and FeedCache.LivePagesTile: the tiling is promised only when no two candidates share the sort key. With ties the source's separate queries may repeat or skip tied posts (Ranking.TiedPagesMayRepeat), so no tiling holds there.
- FeedCache.ApiPosts and Media.AuthorPosts: `skip` and `limit` are natural numbers, or absent for `/api/posts`. NaN and negative query values, which the store would reject or treat specially, are not modelled. For `find().limit(0)` a limit of 0 means no limit; the `Top` aggregation's `{$limit: 0}` stage is rejected by the store, which the model answers with 500.
- Engagement.LikeKeepsListWellFormed requires the like list to be free of duplicates and at most 4000 long before the like. The source guarantees nothing about older records, so the lemma states the invariant it preserves.
- Activity.ActiveUserCount is the size of the table. It has no contract of its own.
- The `Comment.js`, `Room.js` and `Message.js` models are not part of this model. Comments appear only as the records the comment routes store. Rooms and messages appear only as the existing room codes and each room's newest message time.
- Media.DetailsImages: a failure of the whole details handler (500) and the user lookup for the rendered page are left out.
- ImageRoutes.ServeDetailsImage and ImageRoutes.ServeApiImage: a failure to save the record is not modelled, and a stream error after the headers were sent is reduced to the download outcome.
