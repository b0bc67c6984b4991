# Phoenix blogging platform: a verified model of its rules

Phoenix is a blogging platform with a React client and a Spring backend.
Readers browse, search and like posts. Authors write posts, group them into
series and can sell premium posts through a payment gateway. Readers follow
authors, comment and reply, and get notifications. This project models the
rules underneath the screens and the HTTP endpoints, and proves them in Dafny.

Client side:
- relative-time formatting (`dateUtils.js`);
- the post editor's tag chips and submit checks (`CreatePostPage.jsx`);
- the reset-password form's guard chain (`ResetPasswordPage.jsx`);
- the persisted auth session (`authStore.js`);
- the dark-mode preference (`useDarkMode.js`).

Backend side:
- the post service: the response a reader sees, premium gating, reading time, unique view counting, create, update and delete, tag resolution, and listing queries;
- likes, bookmarks and follows;
- notifications;
- comments and their one-level replies;
- accounts and password-reset tokens;
- payment orders and their verification;
- series;
- the public user profile.

Each backend repository is a field of one class, `Database.Db`: a `seq`, `set` or `map` that the service methods reassign under field-level `modifies` frames. A user is identified by their address. Ids are strings, and fresh ids arrive as parameters that are not yet in their table. Several things are parameters too:
- the signed-in principal (`viewer` or `userEmail`);
- "now";
- the password encoder and the JWT provider;
- HMAC-SHA256;
- the gateway's order call;
- the browser's date conversions.

Errors are a `Result` whose `Error` constructors match the Java exception classes and carry their messages. Client state is a class per component or store, over a model of `localStorage` and the root element's class list (`Browser`).

Where the repository disagrees with itself, the model follows the service code:
- `PostRequest` has no `tags` or `saveAsDraft` field, yet `createPost` and `updatePost` read both.
- `CommentRequest` has no `parentId`, yet `createComment` reads it.
- `PostResponse` declares fewer fields than `convertToResponse` sets.
- `LikeRepository` and `PostViewRepository` declare no `deleteByPostId`, yet `deletePost` calls both. They are modelled as the deletions their names describe.
- `Post` declares no `series` or `seriesOrder`, yet the series service sets both.
- `SeriesService.deleteSeriesWithPosts` calls a `PostService.deletePostInternal` that does not exist. It is modelled as the cascade of `deletePost` without its authorisation checks.
- `verifyPayment` saves the status FAILED and then throws inside a transaction. Spring's default would roll that write back. The model keeps FAILED, as the code is written, so a wrong signature sent for an already completed order turns it FAILED.
- The following feed (`findByAuthorIdIn`) does not filter on status. Drafts of followed authors are in the feed, and `PostService.FeedListsDraftsOfFollowed` says so.
- `createComment` does not check that the parent comment belongs to the same post. The model does not check it either.

## Model

| member | source | states |
|---|---|---|
| DateUtils.ToDate | phoenix-client/src/utils/dateUtils.js:1-35 | null and undefined give no date; an array gives no date exactly when year, month or day is missing; otherwise its month is passed on minus one |
| DateUtils.Bucket | phoenix-client/src/utils/dateUtils.js:46-83 | "just now" exactly below one minute, negative differences included; the absolute date exactly from four weeks on; otherwise a count of at least 1 in exactly one unit: minutes floor(d/60000) in 1..59, hours in 1..23, days in 1..6, weeks in 1..3, each only inside its own range |
| DateUtils.FormatRelativeTime | phoenix-client/src/utils/dateUtils.js:37-44 | blank output exactly when `toDate` rejects the value; otherwise the bucket of now minus the date's instant |
| DateUtils.FutureIsJustNow | phoenix-client/src/utils/dateUtils.js:46-48 | a negative difference renders "just now" |
| DateUtils.BucketMonotone | phoenix-client/src/utils/dateUtils.js:55-83 | a larger difference never gives a finer unit, and within one unit never a smaller count |
| DateUtils.PluralExactlyWhenNotOne | phoenix-client/src/utils/dateUtils.js:59-77 | the phrase is the count, a space and the unit word, with no "s" exactly when the count is 1 |
| DateUtils.ArrayMonthIsOneBased | phoenix-client/src/utils/dateUtils.js:7-20 | `[y, m, d]` becomes the calendar date with month index m-1 and zero time fields |
| CreatePostPage.KeepTagChars | phoenix-client/src/pages/CreatePostPage.jsx:18 | the output is no longer than the input and holds only `[a-z0-9-]` |
| CreatePostPage.NormalizeTag | phoenix-client/src/pages/CreatePostPage.jsx:18 | a normalised tag holds only `[a-z0-9-]` |
| CreatePostPage.NormalizeIdempotent | phoenix-client/src/pages/CreatePostPage.jsx:18 | normalising a normalised tag changes nothing |
| CreatePostPage.NormalizeExample | phoenix-client/src/pages/CreatePostPage.jsx:18 | "Hello World!" normalises to "helloworld" |
| CreatePostPage.AddedTags | phoenix-client/src/pages/CreatePostPage.jsx:17-21 | the old list is kept as a prefix and grows by at most one; it grows exactly when the normalised tag is non-empty, fewer than five tags exist and the tag is not present, and then the new last chip is that tag |
| CreatePostPage.AddKeepsTagListOk | phoenix-client/src/pages/CreatePostPage.jsx:19-21 | adding keeps the list at most five long, duplicate-free and normalised, and grows it by at most one |
| CreatePostPage.Without | phoenix-client/src/pages/CreatePostPage.jsx:34 | the list without every copy of the tag, in order |
| CreatePostPage.WithoutRemovesPosition | phoenix-client/src/pages/CreatePostPage.jsx:34 | in a duplicate-free list, removing a chip drops exactly its position and keeps the rest in order |
| CreatePostPage.WithoutAbsent | phoenix-client/src/pages/CreatePostPage.jsx:34 | removing an absent tag changes nothing |
| CreatePostPage.WithoutKeepsTagListOk | phoenix-client/src/pages/CreatePostPage.jsx:34 | removal keeps the list at most five long, duplicate-free and normalised |
| CreatePostPage.KeyDownCases | phoenix-client/src/pages/CreatePostPage.jsx:25-32 | Backspace on an empty field with chips drops exactly the last one; Backspace with text, and any key other than Enter, comma and Backspace, change nothing |
| CreatePostPage.PostEditor.constructor | phoenix-client/src/pages/CreatePostPage.jsx:7-14 | every field starts empty, false or `[]` |
| CreatePostPage.PostEditor.AddTag | phoenix-client/src/pages/CreatePostPage.jsx:17-23 | the list becomes `AddedTags`, and the field is cleared whether or not a tag was added |
| CreatePostPage.PostEditor.HandleTagKeyDown | phoenix-client/src/pages/CreatePostPage.jsx:25-32 | Enter and comma add the typed tag and clear the field; other keys leave the field; the list invariant is kept |
| CreatePostPage.PostEditor.RemoveTag | phoenix-client/src/pages/CreatePostPage.jsx:34 | the list becomes `Without(tags, tag)`, keeping the invariant |
| CreatePostPage.PostEditor.BeginSubmit | phoenix-client/src/pages/CreatePostPage.jsx:36-49 | no request exactly when the title or content is blank after trimming, with the required-fields error and loading off; otherwise the error is cleared, loading is on, and the body carries price 0 for a free post |
| CreatePostPage.PostEditor.FinishSubmit | phoenix-client/src/pages/CreatePostPage.jsx:49-55 | success navigates to the new post; failure shows the server's message or the fixed fallback; loading ends either way |
| ResetPasswordPage.Validate | phoenix-client/src/pages/ResetPasswordPage.jsx:20-33 | no error exactly when the token is non-empty, the passwords match and the password is at least 6 UTF-16 code units long (JavaScript's `length`); any error is one of the three fixed messages |
| Text.Utf16Length | phoenix-client/src/pages/ResetPasswordPage.jsx:30 | JavaScript's `length`: between one and two code units per character, exactly one each when every character is in the Basic Multilingual Plane |
| ResetPasswordPage.LengthCountsCodeUnits | phoenix-client/src/pages/ResetPasswordPage.jsx:30 | three emoji (6 code units) pass the length guard; three letters do not |
| ResetPasswordPage.ValidateOrder | phoenix-client/src/pages/ResetPasswordPage.jsx:20-33 | an empty token is reported first; a mismatch exactly when the token is present; "too short" exactly when both earlier checks pass |
| ResetPasswordPage.ResetPasswordForm.constructor | phoenix-client/src/pages/ResetPasswordPage.jsx:7-13 | the token comes from the URL; every other field starts empty or false |
| ResetPasswordPage.ResetPasswordForm.Submit | phoenix-client/src/pages/ResetPasswordPage.jsx:16-38 | the error is cleared, then set to the first failed guard's message; a request is sent and loading set exactly when all guards pass |
| ResetPasswordPage.ResetPasswordForm.Finish | phoenix-client/src/pages/ResetPasswordPage.jsx:38-46 | success sets `success` and redirects; failure shows the server's message or the fixed fallback, never empty; loading ends either way |
| AuthStore.StoredUser | phoenix-client/src/store/authStore.js:3-14 | a non-empty stored string that parses to a user gives exactly that user; a user only when the stored string parses to one; none for a corrupt record |
| AuthStore.ItemsAfterLoad | phoenix-client/src/store/authStore.js:7-12 | a corrupt user record removes both the user and the token keys; otherwise storage is untouched |
| AuthStore.InitialSession | phoenix-client/src/store/authStore.js:16-22 | authenticated exactly when a non-empty token and a parsed user are both present |
| AuthStore.LoginItems | phoenix-client/src/store/authStore.js:24-26 | both keys are written; every other key is kept |
| AuthStore.LogoutItems | phoenix-client/src/store/authStore.js:30-32 | both keys are gone; every other key is kept |
| AuthStore.CorruptUserPurged | phoenix-client/src/store/authStore.js:7-22 | a corrupt record leaves no user and no token in storage, and an unauthenticated session |
| AuthStore.CorruptUserLeavesTokenInMemory | phoenix-client/src/store/authStore.js:16-20 | the token was read before the purge, so the session keeps it in memory while storage no longer holds it |
| AuthStore.LoginThenReload | phoenix-client/src/store/authStore.js:16-27 | login followed by a reload restores the same token and user, authenticated |
| AuthStore.LogoutThenReload | phoenix-client/src/store/authStore.js:16-34 | logout followed by a reload gives the logged-out session |
| AuthStore.GetStoredUser | phoenix-client/src/store/authStore.js:3-14 | returns `StoredUser` and leaves storage as `ItemsAfterLoad` |
| AuthStore.Store.constructor | phoenix-client/src/store/authStore.js:16-22 | the initial session is `InitialSession` of the storage before the purge |
| AuthStore.Store.Login | phoenix-client/src/store/authStore.js:24-28 | storage becomes `LoginItems`; the session holds the token and user, authenticated |
| AuthStore.Store.Logout | phoenix-client/src/store/authStore.js:30-34 | storage becomes `LogoutItems`; the session is logged out |
| DarkMode.PreferenceOf | phoenix-client/src/hooks/useDarkMode.js:21-27 | "dark" exactly for the dark flag, "light" otherwise |
| DarkMode.InitialDarkModeCases | phoenix-client/src/hooks/useDarkMode.js:6-17 | false with no window; a stored "dark" gives true and "light" false; anything else gives the system preference |
| DarkMode.PersistThenReload | phoenix-client/src/hooks/useDarkMode.js:11-26 | what the effect stores reads back as the same flag, whatever the system preference |
| DarkMode.DarkModeHook.constructor | phoenix-client/src/hooks/useDarkMode.js:6-17 | the flag is `InitialDarkMode` of the stored value |
| DarkMode.DarkModeHook.ToggleDarkMode | phoenix-client/src/hooks/useDarkMode.js:30-32 | the flag is negated, so two toggles restore it |
| DarkMode.DarkModeHook.ApplyEffect | phoenix-client/src/hooks/useDarkMode.js:19-28 | afterwards the stored key is "dark" exactly when the flag is set, and the `dark` class is present exactly when the flag is set |
| Database.FindByEmail | src/main/java/com/phoenix/repository/UserRepository.java:14 | a found row has that address; nothing is found exactly when no row has it |
| Database.FindByName | src/main/java/com/phoenix/repository/UserRepository.java:16-17 | a found row's space-trimmed name equals the trimmed argument; nothing is found exactly when no row matches |
| Database.FindByNameFirstMatch | src/main/java/com/phoenix/repository/UserRepository.java:16-17 | the row found is the first whose trimmed name matches |
| Database.FindByEmailUnique | src/main/java/com/phoenix/service/AuthService.java:44-46 | with unique addresses, the lookup finds the one row with that address |
| Database.Toggle | src/main/java/com/phoenix/service/LikeService.java:37-55 | the pair is in the result exactly when it was not before; every other element is unchanged |
| Database.ToggleTwice | src/main/java/com/phoenix/service/LikeService.java:37-55 | two toggles of the same pair restore the set |
| Database.ToggleCard | src/main/java/com/phoenix/service/LikeService.java:37-55 | a toggle changes the size by exactly one, in the direction of membership |
| LikeService.ToggleLikeCount | src/main/java/com/phoenix/service/LikeService.java:37-55 | the post's count moves by exactly one; other posts' counts are unchanged |
| LikeService.ToggleLike | src/main/java/com/phoenix/service/LikeService.java:29-56 | a missing post, then a missing user, throws and changes no likes; otherwise the pair is toggled and the response reports the new count and whether it was absent before |
| LikeService.GetLikeStatus | src/main/java/com/phoenix/service/LikeService.java:59-72 | the count always; liked exactly for a non-null, known caller who liked the post |
| BookmarkService.ToggleBookmark | src/main/java/com/phoenix/service/BookmarkService.java:33-46 | a missing user, then a missing post, throws and changes nothing; otherwise the pair is toggled and the result is whether it was absent before |
| BookmarkService.ToggleBookmarkOthers | src/main/java/com/phoenix/service/BookmarkService.java:39-45 | every other bookmark is in the set after a toggle exactly when it was before |
| BookmarkService.GetMyBookmarks | src/main/java/com/phoenix/service/BookmarkService.java:52-59 | an unknown caller throws; otherwise exactly the posts the caller bookmarked |
| FollowService.ToggleFollow | src/main/java/com/phoenix/service/FollowService.java:26-51 | unknown caller, then unknown target, then following yourself throw and change nothing; otherwise the pair is toggled, the result is whether it was absent, and a FOLLOW notification is sent only on following |
| FollowService.ToggleKeepsNoSelfFollows | src/main/java/com/phoenix/service/FollowService.java:32-40 | a toggle between two different users keeps the relation free of self-follows |
| FollowService.IsFollowing | src/main/java/com/phoenix/service/FollowService.java:53-58 | true exactly when both users are known and the caller follows the target |
| FollowService.FollowersCount | src/main/java/com/phoenix/service/FollowService.java:60-64 | 0 for an unknown name; otherwise the number of follows of that user |
| FollowService.FollowingCount | src/main/java/com/phoenix/service/FollowService.java:66-70 | 0 for an unknown name; otherwise the number of follows by that user |
| FollowService.ToggleFollowCounts | src/main/java/com/phoenix/service/FollowService.java:36-50 | a toggle moves the target's follower count and the caller's following count by one, together |
| NotificationService.UnreadCount | src/main/java/com/phoenix/service/NotificationService.java:72-74 | 0 exactly when every notification of that recipient is read |
| NotificationService.CreateNotification | src/main/java/com/phoenix/service/NotificationService.java:30-48 | nothing is stored when the recipient equals the actor ignoring case; otherwise exactly one unread notification is added |
| NotificationService.AddedNotificationIsUnread | src/main/java/com/phoenix/entity/Notification.java:51-53 | a new notification raises its recipient's unread count by one and no one else's |
| NotificationService.MarkRead | src/main/java/com/phoenix/repository/NotificationRepository.java:21-23 | only that id changes, and only when it belongs to that address |
| NotificationService.MarkReadIdempotent | src/main/java/com/phoenix/repository/NotificationRepository.java:21-23 | marking twice is marking once |
| NotificationService.MarkAllRead | src/main/java/com/phoenix/repository/NotificationRepository.java:25-27 | every notification of that recipient becomes read; others are unchanged |
| NotificationService.MarkAllReadCounts | src/main/java/com/phoenix/service/NotificationService.java:82-84 | afterwards the recipient has 0 unread, and every other recipient's count is unchanged |
| NotificationService.MarkAsRead | src/main/java/com/phoenix/service/NotificationService.java:77-79 | the table becomes `MarkRead` of the old one |
| NotificationService.MarkAllAsRead | src/main/java/com/phoenix/service/NotificationService.java:82-84 | the table becomes `MarkAllRead` of the old one, with 0 unread for that address |
| PostTags.Candidates | src/main/java/com/phoenix/service/PostService.java:352-354 | no more names than requested |
| PostTags.Dedup | src/main/java/com/phoenix/service/PostService.java:355 | no longer than its input, and only names from it |
| PostTags.DedupOrder | src/main/java/com/phoenix/service/PostService.java:355 | names come in the order of their first occurrence in the input |
| PostTags.TakeDedupKeepsEarliest | src/main/java/com/phoenix/service/PostService.java:355-356 | after `distinct().limit(n)`, a name that appears before the first occurrence of a kept name is kept too, and kept names come in first-occurrence order |
| PostTags.Take | src/main/java/com/phoenix/service/PostService.java:356 | a prefix of at most n names, the whole list when it is short enough |
| PostTags.CandidatesOrigin | src/main/java/com/phoenix/service/PostService.java:352-354 | every candidate is the normal form of a non-null, non-blank requested name |
| PostTags.CandidatesComplete | src/main/java/com/phoenix/service/PostService.java:352-354 | every non-null, non-blank requested name yields its normal form as a candidate |
| PostTags.DedupSpec | src/main/java/com/phoenix/service/PostService.java:355 | the result has no repeats and holds exactly the input's names |
| PostTags.CandidateShape | src/main/java/com/phoenix/service/PostService.java:354 | a candidate has no trimmable character at either end and no upper-case letter |
| PostTags.ResolvedNamesShape | src/main/java/com/phoenix/service/PostService.java:351-356 | at most five names, pairwise distinct, trimmed and lower-case, each from a non-blank requested name; none is dropped when at most five distinct names were requested; otherwise the earliest distinct candidates are kept, in first-occurrence order |
| PostTags.ControlCharacterNameResolvesToEmpty | src/main/java/com/phoenix/service/PostService.java:353-354 | a name of one control character passes `isBlank` but trims to the empty tag name |
| PostTags.Absent | src/main/java/com/phoenix/service/PostService.java:357-359 | only requested names that are not yet stored |
| PostTags.FindOrCreateTags | src/main/java/com/phoenix/service/PostService.java:357-359 | the tag table gains exactly the missing names, in order; stored names stay unique; every requested name is stored afterwards |
| PostContent.FirstSpace | src/main/java/com/phoenix/service/PostService.java:316 | the position of the first `\s` character, with none before it |
| PostContent.SplitWords | src/main/java/com/phoenix/service/PostService.java:316 | `split` always yields at least one piece |
| PostContent.SplitWordsAreWords | src/main/java/com/phoenix/service/PostService.java:316 | on trimmed non-empty text, every piece is non-empty and free of whitespace |
| PostContent.SplitWordsConcat | src/main/java/com/phoenix/service/PostService.java:316 | the pieces joined back are the text without its whitespace |
| PostContent.ReadingTime | src/main/java/com/phoenix/service/PostService.java:317 | at least 1 minute; for w > 0 words, the least m with 200*m >= w; 1 up to 200 words |
| PostContent.ReadingTimeMonotone | src/main/java/com/phoenix/service/PostService.java:317 | more words never mean fewer minutes |
| PostService.CurrentUser | src/main/java/com/phoenix/service/PostService.java:288-292 | a caller row exactly for an authenticated principal with a stored user, and that row has the principal's address |
| PostService.StatusName | src/main/java/com/phoenix/service/PostService.java:341 | "DRAFT" exactly for a draft; a missing status reads as published |
| PostService.ConvertToResponse | src/main/java/com/phoenix/service/PostService.java:282-344 | author and like/bookmark flags only for a known caller; paid only for a premium post the caller did not write and has a completed payment for; content blanked exactly for premium posts neither written nor bought; like count, reading time of at least 1 minute from the full content, and status |
| PostService.PremiumGate | src/main/java/com/phoenix/service/PostService.java:294-312 | content is the original or ""; free posts are never blanked; non-empty premium content is shown exactly to a known author or payer; anonymous callers never see it |
| PostService.ResponseIgnoresViewer | src/main/java/com/phoenix/service/PostService.java:282-344 | apart from the viewer flags and the gated content, every caller gets the same response |
| PostService.CountView | src/main/java/com/phoenix/service/PostService.java:141-149 | a view pair is recorded, and the count rises by one exactly when the pair was new; no other post changes |
| PostService.CountViewKeepsConsistent | src/main/java/com/phoenix/service/PostService.java:139-149 | each post's view count stays its number of distinct recorded viewers |
| PostService.CountViewOnce | src/main/java/com/phoenix/service/PostService.java:141 | the same viewer viewing again changes nothing |
| PostService.GetPostById | src/main/java/com/phoenix/service/PostService.java:133-153 | a missing post throws and changes nothing; anonymous or unknown callers change nothing; a known caller's view goes through `CountView`; the response is `ConvertToResponse` |
| PostService.StatusFor | src/main/java/com/phoenix/service/PostService.java:166 | DRAFT exactly when the request asks to save as draft |
| PostService.ResolveOrCreateTags | src/main/java/com/phoenix/service/PostService.java:169-171 | a missing or empty list resolves to none; otherwise the resolved names, with the missing tag rows created and stored names kept unique |
| PostService.CreatePost | src/main/java/com/phoenix/service/PostService.java:156-175 | an unknown author throws and changes nothing; otherwise the post is stored with the request's fields, DRAFT exactly when asked, no views and the resolved tags |
| PostService.Edited | src/main/java/com/phoenix/service/PostService.java:186-195 | author, views and series are kept; status is DRAFT exactly when asked; the tag list is replaced wholesale |
| PostService.UpdatePost | src/main/java/com/phoenix/service/PostService.java:178-199 | a missing post, or a caller who is not its author, throws and changes nothing; otherwise the post becomes `Edited` |
| PostService.DeletePostRows | src/main/java/com/phoenix/service/PostService.java:216-222 | the post's bookmarks, payments, views, likes, replies, comments and the post itself go; every other row stays |
| PostService.DeletePost | src/main/java/com/phoenix/service/PostService.java:202-223 | a missing post, then a missing caller, throws; success exactly for the author or an admin; any failure changes nothing; success removes the post and exactly the rows that refer to it |
| PostService.SortOrder | src/main/java/com/phoenix/service/PostService.java:100-114 | most liked exactly for "mostLiked" ignoring case; then oldest for "oldest"; newest otherwise |
| PostService.TagFilter | src/main/java/com/phoenix/service/PostService.java:58-59 | no filter exactly for a null or blank tag; otherwise a non-empty, lower-case name with no trimmable character at either end, equal to the trimmed tag ignoring case |
| PostService.TagFilterCanonical | src/main/java/com/phoenix/service/PostService.java:58-59 | applying the filter to its own output changes nothing |
| PostService.GetAllPostsQuery | src/main/java/com/phoenix/service/PostService.java:56-71 | ordered by the sort key; lists exactly the published posts, carrying the filter tag when one is given |
| PostService.TrendingQuery | src/main/java/com/phoenix/service/PostService.java:234-237 | most liked first; lists exactly the published posts |
| PostService.MostLikedAgreesWithoutWildcards | src/main/java/com/phoenix/repository/PostRepository.java:36-41 | for a search without `%` or `_`, the most-liked `LIKE` filter selects the same titles as the escaped substring filter of the other orders |
| PostService.PercentSearchByLikesListsAll | src/main/java/com/phoenix/repository/PostRepository.java:36-41 | a search for "%" sorted by likes lists every published post, while in the default order it lists only titles containing '%' |
| PostService.SearchPostsQuery | src/main/java/com/phoenix/service/PostService.java:74-98 | a null or blank query is `getAllPosts`; otherwise the same query narrowed to the trimmed title fragment |
| PostService.SearchNarrowsListing | src/main/java/com/phoenix/service/PostService.java:56-98 | any post a search lists is also listed without the search, and is published |
| PostService.FollowingFeed | src/main/java/com/phoenix/service/PostService.java:240-257 | an unknown caller throws; following nobody gives the empty first-and-last page with 0 pages; otherwise the authors are exactly those the caller follows |
| PostService.FeedListsDraftsOfFollowed | src/main/java/com/phoenix/service/PostService.java:255 | the feed holds exactly the posts whose author the caller follows, drafts included |
| CommentService.ReplyResponse | src/main/java/com/phoenix/service/CommentService.java:136-145 | a reply names its enclosing comment as parent and carries no replies |
| CommentService.ReplyResponses | src/main/java/com/phoenix/service/CommentService.java:134-146 | one leaf per reply, in collection order |
| CommentService.ConvertToResponse | src/main/java/com/phoenix/service/CommentService.java:133-158 | the comment with its own parent id; its replies in order, each a leaf naming it as parent, so nesting is one level |
| CommentService.ReplyMatchesOwnResponse | src/main/java/com/phoenix/service/CommentService.java:136-155 | a listed reply equals that reply's own response without replies |
| CommentService.GetCommentsByPostId | src/main/java/com/phoenix/service/CommentService.java:39-45 | a missing post throws; otherwise exactly the post's top-level comments |
| CommentService.CommentNotification | src/main/java/com/phoenix/service/CommentService.java:84-102 | REPLY to the parent comment's author exactly for a reply, COMMENT to the post's author otherwise, unread, with the post's id and title |
| CommentService.CreateComment | src/main/java/com/phoenix/service/CommentService.java:63-105 | a missing post, then user, then named parent throws and stores nothing; otherwise the comment is stored and its notification sent unless the recipient is the commenter |
| CommentService.UpdateComment | src/main/java/com/phoenix/service/CommentService.java:108-119 | a missing comment, or a caller who is not its author, throws and changes nothing; otherwise only the content changes |
| CommentService.EditKeepsThreads | src/main/java/com/phoenix/service/CommentService.java:116 | an edit keeps every comment's post, author and parent, so reply collections stay valid |
| CommentService.DeleteComment | src/main/java/com/phoenix/service/CommentService.java:122-131 | a missing comment, or a caller who is not its author, throws and changes nothing; success exactly for the author, and removes that row |
| AuthService.RoleLabel | src/main/java/com/phoenix/service/AuthService.java:84 | the role label with "ROLE_" put back in front is the enum name |
| AuthService.Respond | src/main/java/com/phoenix/service/AuthService.java:57-64 | the response carries the user's address, name, token and role label |
| AuthService.AddFreshKeepsUnique | src/main/java/com/phoenix/service/AuthService.java:44-55 | adding a row with an unused address keeps addresses unique |
| AuthService.Register | src/main/java/com/phoenix/service/AuthService.java:43-65 | a taken address throws and adds nobody; otherwise one ROLE_USER row with the encoded password is added, reported as role "USER"; addresses stay unique |
| AuthService.Login | src/main/java/com/phoenix/service/AuthService.java:67-86 | rejected credentials throw first; an unknown address throws next; accepted credentials for a stored address succeed with that user's response, and only those |
| AuthService.IssueToken | src/main/java/com/phoenix/service/AuthService.java:93-104 | afterwards the user holds exactly the new token, unused, expiring an hour on; other users' tokens are untouched |
| AuthService.ForgotPassword | src/main/java/com/phoenix/service/AuthService.java:89-109 | an unknown address changes nothing and does not fail; a known one gets `IssueToken` and the reset link |
| AuthService.CheckResetToken | src/main/java/com/phoenix/service/AuthService.java:113-126 | unknown, then used, then expired tokens each throw their message; passes exactly for a known, unused token not yet expired |
| AuthService.SetPassword | src/main/java/com/phoenix/service/AuthService.java:128-130 | rows with that address get the new password; all others are untouched |
| AuthService.ResetPassword | src/main/java/com/phoenix/service/AuthService.java:112-134 | a failed check changes nothing; otherwise the password is the encoding of the new one and the token is marked used |
| AuthService.TokenSingleUse | src/main/java/com/phoenix/service/AuthService.java:119-133 | a token that was used is refused at any later time |
| AuthService.IssuedTokenLifetime | src/main/java/com/phoenix/service/AuthService.java:100-126 | a fresh token is accepted exactly up to one hour after issue, for its user |
| PaymentService.Receipt | src/main/java/com/phoenix/service/PaymentService.java:76 | "rcpt_" followed by the first eight characters of the post id |
| PaymentService.CheckOrder | src/main/java/com/phoenix/service/PaymentService.java:51-69 | missing post, non-premium post and unknown user are refused in that order; passes exactly for a known user who neither wrote nor paid for a premium post |
| PaymentService.NoOrderForAuthorOrPayer | src/main/java/com/phoenix/service/PaymentService.java:61-69 | the author is refused as author; anyone else with a completed payment is refused as having paid |
| PaymentService.CreateOrder | src/main/java/com/phoenix/service/PaymentService.java:50-102 | a failed guard or a gateway error records nothing; otherwise one PENDING payment for the post's price is stored under the gateway's order id and returned with currency INR |
| PaymentService.AfterCheck | src/main/java/com/phoenix/service/PaymentService.java:119-127 | COMPLETED with the payment id exactly on a match; FAILED otherwise; user, post and amount kept |
| PaymentService.VerifyPayment | src/main/java/com/phoenix/service/PaymentService.java:108-128 | an unknown order, or another user's order, throws and changes nothing; otherwise the record becomes `AfterCheck` of the signature comparison, and the call fails exactly on a mismatch |
| PaymentService.HasPaid | src/main/java/com/phoenix/service/PaymentService.java:133-138 | false for an unknown user; otherwise true exactly when a completed payment exists |
| PaymentService.MatchedVerificationPays | src/main/java/com/phoenix/service/PaymentService.java:125-137 | a matched verification makes `hasPaid` true for that user and post |
| PaymentService.PendingOrderGrantsNothing | src/main/java/com/phoenix/service/PaymentService.java:133-137 | a new PENDING order leaves `hasPaid` as it was for everyone |
| SeriesService.ToResponse | src/main/java/com/phoenix/service/SeriesService.java:119-130 | the post count is the number of linked posts, and 0 exactly when none is linked |
| SeriesService.CheckAuthor | src/main/java/com/phoenix/service/SeriesService.java:57-62 | a missing series and a non-author each get their own error; passes exactly for the author |
| SeriesService.UpdateSeries | src/main/java/com/phoenix/service/SeriesService.java:56-67 | a failed check changes nothing; otherwise only the name and description change |
| SeriesService.UnlinkSeries | src/main/java/com/phoenix/service/SeriesService.java:79-83 | no post is removed; every member has no series and order 0 and is otherwise unchanged; non-members are unchanged |
| SeriesService.UnlinkKeepsOtherCounts | src/main/java/com/phoenix/service/SeriesService.java:79-83 | unlinking one series leaves every other series' members unchanged |
| SeriesService.DeleteSeries | src/main/java/com/phoenix/service/SeriesService.java:70-86 | a failed check changes nothing; otherwise the loop leaves the posts as `UnlinkSeries` and removes the series |
| SeriesService.CascadeStep | src/main/java/com/phoenix/service/SeriesService.java:98-99 | deleting one more post extends the set of deleted posts, table by table |
| SeriesService.DeleteSeriesWithPosts | src/main/java/com/phoenix/service/SeriesService.java:89-102 | a failed check changes nothing; otherwise every member post and all rows referring to it are deleted, then the series |
| UserController.PublishedOnly | src/main/java/com/phoenix/controller/UserController.java:40-44 | exactly the published ids of the collection, no more of them than it has, without repeats when it has none |
| UserController.DistinctCard | src/main/java/com/phoenix/controller/UserController.java:53 | a list without repeats has as many elements as its set |
| UserController.ProfileEntries | src/main/java/com/phoenix/controller/UserController.java:57-77 | one entry per id, in order, each reporting "PUBLISHED" with its stored content and the viewer's like flag |
| UserController.ProfileListing | src/main/java/com/phoenix/controller/UserController.java:40-77 | the listing holds exactly the user's published posts, each once |
| UserController.GetUserProfile | src/main/java/com/phoenix/controller/UserController.java:29-81 | an unknown name throws; otherwise exactly the user's published posts, their number, the follow counts, the follow flag only for a signed-in viewer, and like flags only for a known viewer |
| UserController.ProfileTotalCountsPublished | src/main/java/com/phoenix/controller/UserController.java:40-53 | `totalPosts` is the number of the user's published posts |
| UserController.PremiumContentExposedOnProfile | src/main/java/com/phoenix/controller/UserController.java:65 | an anonymous visitor receives a listed premium post's non-empty content, which `convertToResponse` would blank |
| UserController.GateEntries | src/main/java/com/phoenix/service/PostService.java:307-312 | each entry is kept but for its content, which passes the premium gate |
| UserController.GetUserProfileGated | src/main/java/com/phoenix/controller/UserController.java:29-81 | the same profile as `GetUserProfile` except that each content passes the premium gate |
| UserController.GatedProfileHidesPremium | src/main/java/com/phoenix/service/PostService.java:307-312 | on the gated profile, non-empty premium content reaches exactly its author or a payer, never an anonymous visitor; free posts are shown in full |

## Left out

- HTTP routing, CORS, `ResponseEntity` wrapping and the Spring Security lookup: the caller is a parameter. `UserController`'s `toggleFollow` message and `getFollowStatus` are controller glue over `FollowService`.
- Pagination, ordering and page headers of every listing: these are the database's. Listings are modelled as the query they select (`PostQuery`) or as the set of rows they read.
- `getMyDrafts`, `getRelatedPosts`, `getMyNotifications`, `createSeries`, `getMySeries`, `getSeriesPosts` and `getSeriesById`: these are outside the modelled core.
- Timestamps (`createdAt`, `updatedAt`, `joinedDate`) are not modelled. Token expiry uses "now" as a whole number of seconds.
- Password hashing, JWT generation, HMAC-SHA256 and the Razorpay client: these are function parameters. `forgotPassword` returns the reset link instead of mailing it.
- Browser `Date` parsing, time zones and `toLocaleDateString`: these are parameters. The relative-time model works on the millisecond difference.
- The floating-point price conversion in the post editor: it is a parameter `toPaise`.
- Database identity, and comment cascades that live in entity mappings: the `Comment` entity is not part of this model. `CommentService.DeleteComment` therefore removes only that row.
- Concurrency, transactions and rollback: `PaymentService.VerifyPayment` keeps the FAILED write as written.
- JSX rendering, timers, fetch races and the read-only pages.
- Database.FindByName: returns the first matching row, where Spring's single-result query throws `IncorrectResultSizeDataAccessException` when two rows share a trimmed name. Registration does not keep names unique, so `getUserProfile` and the follow operations fail in the source exactly where the model uses the first match. The two agree whenever at most one row matches (`Database.FindByNameFirstMatch`).
- The most-liked title search's `LIKE` is modelled without an escape character. The database's default escape character (a backslash on some engines) is not part of this model.
- Text.Lower: maps only ASCII letters. Java's `toLowerCase`/`equalsIgnoreCase` and JavaScript's `toLowerCase` also map other letters.
- PostTags.ResolvedNamesShape: does not state that resolved names are non-blank. A name made only of control characters passes `isBlank` and then trims to "" (`PostTags.ControlCharacterNameResolvesToEmpty`).
- PostContent.ReadingTime: `Math.ceil(words / 200.0)` is modelled as the exact integer ceiling. The double is exact at any word count a post can hold.
- Integer widths: counts, prices and view counts are unbounded integers. The source's `int` and `long` overflow is not modelled.
- UserController.GetUserProfile: the user's post collection is a parameter in collection order, required to be exactly that user's posts.

## Findings

| source | as written | input that shows it | evidently intended | confidence | as-written member | corrected member |
|---|---|---|---|---|---|---|
| src/main/java/com/phoenix/controller/UserController.java:65 | each post listed on a public profile carries `post.getContent()` unchanged; the profile page renders it | an anonymous request for the profile of an author with a published premium post whose content is non-empty | the same premium gate as every other post response: the content is blanked unless the viewer wrote the post or holds a completed payment for it | high; not executed | UserController.PremiumContentExposedOnProfile | UserController.GatedProfileHidesPremium |
