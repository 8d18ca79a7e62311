# Archiore authentication, guard and feed core in Dafny

This project models the logic core of Archiore, a Next.js portfolio and
image-sharing site, and proves properties of it. The model covers these parts:

- **Session manager** (`src/app/lib/session.ts`). It keeps a signed token
  `{ userId, expires }` in the `session` cookie and offers four operations:
  create, verify, refresh (update) and delete. Tokens are JWTs (RFC 7519)
  signed with HS256 (section 3.2 of RFC 7518). They are modelled
  symbolically: a token carries its claims and a MAC term over key, header
  and claims.
- **Request guard** (`src/middleware.ts`). This is the redirect decision over
  "is there a valid session" and the pathname.
- **Server actions** (`src/app/actions.ts`, `src/app/upload/actions.ts`):
  - the one-time-code table, with issue, verify and single use;
  - the login and signup checks and their choice between refreshing and
    creating a session;
  - `isSignedInAction` and `changePasswordAction`;
  - feed and search pagination;
  - the guard sequence of `getSignedURL`, its random hex file name and the
    post row it inserts.
- **Client handlers and validators**:
  - the three-step forgot-password page;
  - the code-entry page;
  - the signup and sign-in forms;
  - the upload form and its hex checksum.
- **Infinite-scroll lists** (home feed, search, tag page, related posts):
  - the avatar normalisation;
  - the four-column round-robin split;
  - the first-occurrence-by-id merge;
  - the reset, fetch and scroll steps with their `hasMore` rules.

Handlers that update state in place are Dafny classes whose methods change
their fields. Each such method is specified by a pure function of the old
state, and the properties are proved about those functions.

The following are parameters of the model:

| source behaviour | parameter |
|---|---|
| the clock | `nowMs` |
| `Math.random()` | a real `r` in [0, 1) |
| `crypto.getRandomValues` | a function from position to byte |
| `decodeURIComponent` | a function on strings |
| `Date.prototype.toISOString` | a function on strings |
| the S3 presigner | a function on strings |
| bcrypt | a function on strings, plus the stored hash |
| zod's e-mail test | a function on strings |
| the SHA-256 digest | a byte sequence |
| server replies seen by the client | `ActionResult` values, or `None` when the call throws |
| database and service failures | booleans |

## Model

| member | source | states |
|---|---|---|
| Session.SignThenVerify | src/app/lib/session.ts:14-32 | Verifying a token signed with the same key yields its claims exactly while the `exp` claim lies ahead, and nothing after |
| Session.TamperedTokenRejected | src/app/lib/session.ts:22-32 | A token whose claims were altered, or one checked under another key, is rejected |
| Session.IssuedCookie | src/app/lib/session.ts:34-47 | The issued cookie is httpOnly, secure, sameSite lax, path `/`, with `expires` = now + 7 days; it decodes to the user with `expires` = floor((now + 604800000) / 1000) |
| Session.VerifySession | src/app/lib/session.ts:80-112 | No cookie gives null; otherwise a payload is returned iff the value decodes and `expires` is not below the current second, and the payload is the decoded one unchanged |
| Session.Created | src/app/lib/session.ts:34-48 | Only the `session` cookie is written (overwriting), and verifying at once yields the new user with a 7-day expiry |
| Session.Updated | src/app/lib/session.ts:51-78 | An absent or undecodable cookie leaves the store untouched; otherwise the same user is re-issued with a fresh 7-day expiry and nothing else changes |
| Session.Deleted | src/app/lib/session.ts:114-124 | Exactly the `session` and `jwt` keys are removed, and no later verification finds a session |
| Session.SessionManager.constructor | src/app/lib/session.ts:11-12 | The key is the secret, read without a presence check |
| Session.SessionManager.CreateSession | src/app/lib/session.ts:34-48 | The new cookie store is `Created` of the old one |
| Session.SessionManager.UpdateSession | src/app/lib/session.ts:51-78 | Returns `{ ok: true }` iff the cookie decodes; the new store is `Updated` of the old one |
| Session.SessionManager.DeleteSession | src/app/lib/session.ts:114-124 | The new store is `Deleted` of the old one |
| Session.VerifyAfterCreate | src/app/lib/session.ts:34-48 | A created session verifies at every later instant before its expiry second and at none from it on |
| Session.DeleteIdempotent | src/app/lib/session.ts:114-124 | Deleting twice equals deleting once |
| Session.RefreshExtends | src/app/lib/session.ts:51-78 | A refresh keeps the user and never moves the expiry back; a second later it moves it strictly forward |
| Session.ExpiryIsExclusive | src/app/lib/session.ts:18 | When `exp` equals `expires`, a session verifies iff its MAC is right and `expires` lies strictly after the current second |
| Session.RunKeepsExpiryClaims | src/app/lib/session.ts:14-20 | Any sequence of create, update and delete keeps `exp` and `expires` in agreement |
| Session.RunEndingInDelete | src/app/lib/session.ts:114-124 | A run ending in delete leaves no verifiable session |
| Middleware.Guard | src/middleware.ts:5-22 | Signed in at `/` redirects home; signed out at one of the three exact listed paths redirects to sign-in; everything else passes, each case iff its condition |
| Middleware.OnlyPresenceMatters | src/middleware.ts:5-22 | The decision depends on session presence only, not on which user |
| Middleware.WildcardIsLiteral | src/middleware.ts:15-16 | Signed-out requests for `/home` and any `/home/x` other than `/home/*` are not redirected |
| Middleware.NoCookieProtectsUpload | src/middleware.ts:15-18 | A request without a session cookie for `/upload` is redirected to sign-in |
| Middleware.IntendedGuard | src/middleware.ts:15-18 | Corrected guard: signed-out requests for `/home` and its subtree redirect to sign-in; signed-in decisions equal the original's |
| Middleware.IntendedGuardsHomeSubtree | src/middleware.ts:15-18 | The corrected guard protects the `/home` subtree and agrees with the original everywhere else |
| OtpActions.OtpNumber | src/app/actions.ts:503 | The drawn code lies in [100000, 999999] |
| OtpActions.DecimalString | src/app/actions.ts:503 | `toString` gives a non-empty run of decimal digits |
| OtpActions.DecimalRoundTrip | src/app/actions.ts:503 | The printed number reads back as itself |
| OtpActions.DecimalLength | src/app/actions.ts:503 | A k-digit number prints as exactly k characters |
| OtpActions.IssuedCodeHasSixDigits | src/app/actions.ts:503-504 | Every generated code is exactly six decimal digits |
| OtpActions.GenerateOtpAction | src/app/actions.ts:502-524 | Success upserts the one row for the email with expiry now + 300000 ms; a store error is reported and nothing changes; no other table changes |
| OtpActions.VerifyOtpAction | src/app/actions.ts:528-537 | Replies Invalid, Expired or Verified by the checks in order; only a verified code deletes the row |
| OtpActions.VerifyAfterGenerate | src/app/actions.ts:502-537 | A fresh code is accepted up to and including its expiry instant, expired after it, and any other code is invalid |
| OtpActions.SingleUse | src/app/actions.ts:534-536 | After a code is accepted, any code for that email is invalid |
| OtpActions.RegenerateReplaces | src/app/actions.ts:507-516 | A second generation replaces the row, so the earlier code stops working |
| AuthActions.FindByEmail | src/app/actions.ts:96-98 | Finds a user with that email iff one exists |
| AuthActions.FindFirstClash | src/app/actions.ts:31-35 | Finds a user matching the email or the username iff one exists |
| AuthActions.Authenticate | src/app/actions.ts:91-106 | Schema errors are joined; otherwise an unknown email and a wrong password give the same error; login succeeds iff the schema passes, a user with the email exists and the password matches its hash, and then the user is that one |
| AuthActions.SignupCheck | src/app/actions.ts:21-44 | Schema errors first; a found user reports the email clash before the username clash; signup proceeds iff the schema passes and no user shares email or username |
| AuthActions.SessionAfterSignIn | src/app/actions.ts:66-73 | A session cookie that still decodes is refreshed for the user it names; otherwise a session is created for the signed-in user |
| AuthActions.SignInKeepsHeldSession | src/app/actions.ts:108-116 | Signing in while holding another user's live session keeps that other user signed in |
| AuthActions.EstablishSession | src/app/actions.ts:108-116 | The new cookie store is `SessionAfterSignIn` of the old one |
| AuthActions.LoginAction | src/app/actions.ts:91-124 | Replies ok iff the schema passes, the email is stored and the password matches; on success the session is established for that user; every failure is a schema error or the one credentials error and leaves the cookies as they were |
| AuthActions.SignupAction | src/app/actions.ts:21-82 | A failed check changes nothing; otherwise exactly one user and one portfolio are appended and the session is established |
| AuthActions.IsSignedIn | src/app/actions.ts:128-134 | Signed in iff the session verifies, with that session's user id |
| AuthActions.WithPassword | src/app/actions.ts:620-623 | Exactly the users with the email get the new hash; nobody else changes |
| AuthActions.WithoutOwner | src/app/actions.ts:624-626 | Exactly the user's session rows are removed: the multiset of rows loses all of that user's and keeps every other row with its multiplicity |
| AuthActions.WithoutOwnerKeepsOrder | src/app/actions.ts:624-626 | The deletion works in place: removing from a concatenation removes from each part, so the remaining rows keep their order |
| AuthActions.ChangePasswordAction | src/app/actions.ts:610-630 | Unknown email: the failure reply and no change. Otherwise the hash is updated, the user's session rows are deleted, the cookies are deleted, and the success reply is returned |
| FeedActions.Slice | src/app/actions.ts:363-364 | skip/take returns the rows from `skip` on, at most `take` of them |
| FeedActions.Page | src/app/actions.ts:363-364 | Page p holds rows (p-1)*limit onwards, at most `limit` |
| FeedActions.SkippedIsProduct | src/app/actions.ts:363 | Summing the limit once per page gives (p-1)*limit |
| FeedActions.PagesTile | src/app/actions.ts:363-364 | Pages 1..n concatenated are exactly the first n*limit rows: no gaps, no repeats |
| FeedActions.PagesTileSkipped | src/app/actions.ts:363-364 | The tiling, with the skip counted page by page |
| FeedActions.SearchPosts | src/app/actions.ts:375-416 | An empty query or a failing query gives no posts and no more; otherwise the page, with `hasMore` iff the next page is non-empty |
| FeedActions.NoMoreMeansComplete | src/app/actions.ts:411 | Once a search reports no more, pages 1..p hold every match |
| FeedActions.GetFeed | src/app/actions.ts:353-372 | The page of 10 posts at (page-1)*10 |
| FeedActions.ShortPageIsLast | src/app/actions.ts:353-372 | A page shorter than the limit is the last: all rows are served and the next page is empty |
| UploadActions.UploadGuard | src/app/upload/actions.ts:55-68 | Type is checked first, then size, then session; all pass iff the type is allowed, the size is at most 10 MiB and a session exists |
| UploadActions.SizeLimitIsInclusive | src/app/upload/actions.ts:21 | Exactly 10485760 bytes passes the size check; one byte more fails |
| UploadActions.GenerateFileName | src/app/upload/actions.ts:24-28 | 2n lowercase hex digits, each byte high nibble first, which decode back to the random bytes |
| UploadActions.PublicUrl | src/app/upload/actions.ts:89 | The URL starts with `https://` and ends with `/` and the file name |
| UploadActions.StoredDescription | src/app/upload/actions.ts:92 | An empty or absent description is stored as null; otherwise it is stored unchanged |
| UploadActions.GetSignedUrl | src/app/upload/actions.ts:45-103 | Guard failures return their message; service errors give one generic failure; success gives the presigned URL for the random name and appends exactly one post row (0 upvotes, the session's user) whose URL ends in that name; failures add none |
| UploadActions.UploadNameAndUrlAgree | src/app/upload/actions.ts:72-98 | The default name is 64 hex digits and the stored URL ends in it |
| Hex.ByteHex | src/app/upload/actions.ts:27 | Two digits: high nibble, then low nibble |
| Hex.HexString | src/components/uploadCard.tsx:39-41 | Two hex digits per byte, all of them lowercase hex |
| Hex.HexStringAt | src/components/uploadCard.tsx:39-41 | The digits at 2i and 2i+1 encode byte i, so order is preserved |
| Hex.DigitValue | src/components/uploadCard.tsx:40 | Inverse of one hex digit |
| Hex.HexRoundTrip | src/components/uploadCard.tsx:39-41 | Decoding the hex string gives back the bytes |
| UploadCard.CollectFormErrors | src/components/uploadCard.tsx:47-50 | Each required-field message is present iff its field is missing; the record is empty iff all three are given |
| UploadCard.Checksum | src/components/uploadCard.tsx:36-42 | The checksum is 2 lowercase hex digits per digest byte and decodes back to the digest |
| UploadCard.UploadForm.constructor | src/components/uploadCard.tsx:9-15 | Empty fields, no errors, not loading |
| UploadCard.UploadForm.SelectTag | src/components/uploadCard.tsx:175-187 | The tag becomes the chosen option, which keeps the tag within the eight options |
| UploadCard.UploadForm.HandleSubmit | src/components/uploadCard.tsx:44-98 | getSignedURL is called iff no error was recorded; after a call, loading is false, navigation happens iff the reply and the PUT succeed, and an alert otherwise |
| EmailPattern.MatchesEmailIsPattern | src/components/Singup.tsx:48 | The decision procedure accepts exactly the strings `\S+@\S+\.\S+` matches somewhere |
| EmailPattern.MatchHasAt | src/components/Signin.tsx:24 | Every accepted string contains `@` |
| EmailPattern.AcceptsMinimal | src/components/Signin.tsx:24 | `a@b.c` is accepted |
| EmailPattern.RejectsIncomplete | src/components/Signin.tsx:24 | `a@b`, `@b.c` and `a@.c` are rejected |
| SignupForm.RequiredError | src/components/Singup.tsx:31-42 | A required field errs iff it is empty, with its message |
| SignupForm.EmailError | src/components/Singup.tsx:45-53 | Empty gives "Email is required."; not matching gives "Email address is invalid."; no error iff non-empty and matching |
| SignupForm.PasswordError | src/components/Singup.tsx:64-72 | Empty or shorter than 6 errs with its message; no error iff at least 6 characters |
| SignupForm.ConfirmError | src/components/Singup.tsx:75-80 | A mismatch error iff the two strings differ, so two empty strings agree |
| SignupForm.PassesIffNoFieldErrors | src/components/Singup.tsx:26-84 | The form passes iff no field shows an error |
| SignupForm.ValidateForm | src/components/Singup.tsx:26-84 | Returns true iff every check passes; every field's error is set or cleared; the form error is kept from the copied record |
| SignupForm.StaleFormErrorSurvives | src/components/Singup.tsx:28 | As written, a form error from an earlier attempt survives a new submit of valid data |
| SignupForm.IntendedSubmitForgetsHistory | src/components/Singup.tsx:95-103 | Validating from the reset record gives no form error and the same record whatever came before; it differs from the as-written record only in the form error, and is blank iff the form passes |
| SignupForm.SignupFormState.constructor | src/components/Singup.tsx:16-22 | No errors and no success message |
| SignupForm.SignupFormState.HandleSubmit | src/components/Singup.tsx:91-111 | signupAction is called iff validation passes; the errors are the as-written submit record |
| SignupForm.SignupFormState.FinishSignup | src/components/Singup.tsx:111-128 | Success shows the message and navigates home; failure shows the reply's error or the fixed text; a throw shows the generic text |
| SigninForm.ValidateForm | src/components/Signin.tsx:16-37 | Valid iff every field check passes iff the fresh record has no error; the email and password errors are as listed, with no length check |
| SigninForm.ServerErrorHidden | src/components/Signin.tsx:59 | As written, every failed login shows the fixed text, even for a password the server rejects for its length |
| SigninForm.IntendedShowsServerError | src/components/Signin.tsx:59 | Reading the reply's `error` shows every server rejection as sent |
| SigninForm.SigninFormState.constructor | src/components/Signin.tsx:12 | No errors |
| SigninForm.SigninFormState.HandleSubmit | src/components/Signin.tsx:44-48 | loginAction is called iff the form passes; the record is rebuilt from scratch with the email message (required, then invalid), the password message (required only) and no form error |
| SigninForm.SigninFormState.FinishLogin | src/components/Signin.tsx:51-67 | Success navigates home; failure shows `message` or the fixed text; a throw shows the generic text |
| ForgotPassword.Handle | src/app/forgot-password/page.tsx:17-78 | Both messages are cleared; a failed client check keeps the step and shows an error; the step advances by one iff the server call is made and accepted (send or verify) |
| ForgotPassword.VerifyFailureIgnoresServerMessage | src/app/forgot-password/page.tsx:53-55 | A failed verification shows "Invalid OTP. Try again." whatever the server said |
| ForgotPassword.RunNeverBackward | src/app/forgot-password/page.tsx:11-78 | No sequence of submissions moves the flow back a step |
| ForgotPassword.OtpStepNeedsSend | src/app/forgot-password/page.tsx:29-31 | Leaving the email step requires a send that the server accepted |
| ForgotPassword.PasswordStepNeedsVerifiedOtp | src/app/forgot-password/page.tsx:50-52 | Reaching the password step requires an accepted send followed by an accepted code |
| ForgotPassword.ForgotPasswordPage.constructor | src/app/forgot-password/page.tsx:11-13 | Email step with no messages |
| ForgotPassword.ForgotPasswordPage.HandleSendOtp | src/app/forgot-password/page.tsx:17-36 | Calls the server iff the email contains `@`; the new state is `Handle` of the old |
| ForgotPassword.ForgotPasswordPage.HandleVerifyOtp | src/app/forgot-password/page.tsx:38-57 | Calls the server iff the code has 6 characters; the new state is `Handle` of the old |
| ForgotPassword.ForgotPasswordPage.HandleChangePassword | src/app/forgot-password/page.tsx:59-78 | Calls the server iff the password has at least 6 characters; the new state is `Handle` of the old |
| VerifyPage.VerifyPageState.constructor | src/components/Verify.tsx:11-12 | No messages |
| VerifyPage.VerifyPageState.HandleVerifyOtp | src/components/Verify.tsx:19-43 | The length check comes first, then the email check; the server is called iff both pass; success shows the message and navigates home; failure shows the server text or the fixed one |
| VerifyPage.ShownVerdicts | src/components/Verify.tsx:39-41 | The page shows "Invalid OTP" and "OTP expired" for the server's two rejections |
| FeedList.Normalize | src/components/SearchBody.tsx:53-60 | A falsy avatar becomes `/noAvatar.png`; every other field is unchanged |
| FeedList.NormalizeAll | src/components/Body.tsx:62-68 | Same length and same ids as the batch |
| FeedList.NormalizeAllAt | src/components/Body.tsx:62-68 | Each element is the normalised post at the same index |
| FeedList.ColumnAt | src/components/Body.tsx:32 | Column c holds exactly the posts at indices 4k + c, in order |
| FeedList.ColumnsPartition | src/components/SearchBody.tsx:34-36 | The four column lengths sum to the list length, and post i is in column i % 4 at position i / 4 |
| FeedList.IdsMember | src/components/SearchBody.tsx:65 | An id is in the id set iff some post carries it |
| FeedList.IdsAppend | src/components/SearchBody.tsx:64 | The ids of a concatenation are the union of the ids |
| FeedList.FindIndex | src/components/SearchBody.tsx:65 | `findIndex` gives the first index with the id, or -1 iff none |
| FeedList.FirstOccurrencesIsKeepFirst | src/components/SearchBody.tsx:63-68 | The `filter` with `findIndex` equals keeping the first post per id |
| FeedList.KeepFirstIds | src/components/SearchBody.tsx:63-68 | Dedup keeps the id set and leaves ids unique |
| FeedList.KeepFirstOfUnique | src/components/SearchBody.tsx:63-68 | Dedup of a list with unique ids is the list itself |
| FeedList.KeepFirstAppend | src/components/SearchBody.tsx:63-68 | Dedup of a + b extends dedup of a only with posts of b whose id is not in a |
| FeedList.KeepFirstAbsorbs | src/components/SearchBody.tsx:63-68 | Appending posts whose ids are already present and deduplicating gives the list back |
| FeedList.MergeKeepsPrevious | src/components/SearchBody.tsx:63-68 | The merge keeps every previous post in place, adds only unseen batch posts, keeps ids unique, and its ids are the union |
| FeedList.MergeIdempotent | src/components/ExploreRelated.tsx:65-70 | Merging the same batch twice equals merging it once |
| FeedList.LastSegment | src/components/RelatedPosts.tsx:22 | The result is the text after the last `/`, and contains no `/` |
| SearchBody.NormalizeResults | src/components/SearchBody.tsx:53-60 | Same length and ids; each post has the avatar default and `createdAt` rewritten, other fields unchanged |
| SearchBody.SearchFeed.constructor | src/components/SearchBody.tsx:22-29 | Empty list, page 1, more to fetch, loading, not fetching |
| SearchBody.SearchFeed.ChangeQuery | src/components/SearchBody.tsx:38-43 | Resets posts, page, `hasMore` and `loading` |
| SearchBody.SearchFeed.BeginFetch | src/components/SearchBody.tsx:46-48 | Starts iff the query is non-empty, `hasMore` holds and no fetch is running |
| SearchBody.SearchFeed.CompleteFetch | src/components/SearchBody.tsx:51-76 | A reply is merged (previous posts kept as a prefix, ids unique, ids the union) and sets `hasMore` to the server's value; a throw changes nothing; both clear the flags |
| SearchBody.SearchFeed.Scroll | src/components/SearchBody.tsx:84-88 | The page advances iff near the bottom with more to fetch and no fetch running |
| ExploreRelated.TagOf | src/components/ExploreRelated.tsx:22 | The tag is the decoded last segment, and the decoded empty string when the path ends in `/` |
| ExploreRelated.ExploreFeed.constructor | src/components/ExploreRelated.tsx:22-28 | Empty list, page 1, more to fetch, loading, not fetching |
| ExploreRelated.ExploreFeed.ChangeTag | src/components/ExploreRelated.tsx:42-47 | Resets posts, page, `hasMore` and `loading` |
| ExploreRelated.ExploreFeed.BeginFetch | src/components/ExploreRelated.tsx:50-52 | Starts iff the tag is non-empty, `hasMore` holds and no fetch is running |
| ExploreRelated.ExploreFeed.CompleteFetch | src/components/ExploreRelated.tsx:54-78 | A reply is merged (prefix kept, ids unique, ids the union); `hasMore` turns false only on an empty batch; a throw changes nothing; both clear the flags |
| ExploreRelated.ExploreFeed.Scroll | src/components/ExploreRelated.tsx:85-89 | The page advances iff near the bottom with more to fetch and no fetch running |
| ExploreRelated.RepeatedBatchIsHarmless | src/components/ExploreRelated.tsx:55-70 | Merging the same page-less batch again leaves the list unchanged |
| RelatedPosts.RelatedFeed.constructor | src/components/RelatedPosts.tsx:21-28 | The post id is the raw last segment; empty list, page 1, more to fetch, loading |
| RelatedPosts.RelatedFeed.ChangePost | src/components/RelatedPosts.tsx:42-47 | Resets posts, page, `hasMore` and `loading` |
| RelatedPosts.RelatedFeed.BeginFetch | src/components/RelatedPosts.tsx:50-52 | Starts iff the post id is non-empty, `hasMore` holds and no fetch is running |
| RelatedPosts.RelatedFeed.CompleteFetch | src/components/RelatedPosts.tsx:54-78 | A reply is merged (prefix kept, ids unique, ids the union); `hasMore` turns false only on an empty batch; a throw changes nothing |
| RelatedPosts.RelatedFeed.Scroll | src/components/RelatedPosts.tsx:85-89 | The page advances iff near the bottom with more to fetch and no fetch running |
| Body.HomeFeed.constructor | src/components/Body.tsx:20-23 | Empty list, loading, page 1, more to fetch |
| Body.HomeFeed.FetchPosts | src/components/Body.tsx:56-79 | Nothing happens once `hasMore` is false; a batch is appended without dedup, so the length grows by the batch size; `hasMore` turns false on a batch under 10 and never back; loading ends false |
| Body.HomeFeed.LastPostVisible | src/components/Body.tsx:85-89 | The page advances iff the last post is visible and more remain |
| Body.ShortBatchEndsFeed | src/components/Body.tsx:73 | When the feed is given getFeedAction's pages, the short batch that ends it is the last page: every post has been served and the next page is empty |

## Left out

- Cryptography inside `jose` is left out. HMAC is a symbolic term, equal only for equal key, header and claims. Compact serialisation and base64url are not modelled.
- `jwtVerify` enforces the `exp` claim (section 4.1.4 of RFC 7519). `encrypt` sets `exp` to `expires`, so an issued token with `expires` equal to the current second is rejected. The comparison at `session.ts:101` alone would accept it. The model follows the code together with this library check.
- The secret is read with no presence check (`session.ts:11-12`). The model uses the empty key when it is absent and adds no fail-fast guard.
- The `try`/`catch` around verification (`session.ts:108-111`) has no separate failure mode in the model. Every failure there is already `None`.
- The cookie store stands for one request's cookies. Cookie attributes are recorded but not enforced by a browser.
- Database and service I/O are represented as follows:
  - The Prisma tables are fields of one `Database` object.
  - The failure of `getFeedAction` (it rethrows) is the client's `None` reply.
  - The upload action's presigner or insert failure is one boolean.
  - A throwing `loginAction`, `signupAction` or `changePasswordAction` database call is not modelled.
- The search predicate (case-insensitive match on five fields) and the tag and related-post queries are left out. Their results are parameters: `matches` in search, and the batch in the list components.
- `sendOtpAction` and `logoutAction` (e-mail through Resend, cookie clearing) are outside this model.
- Foreign code is represented by parameters, with no behaviour of its own:
  - bcrypt hashing and comparison;
  - zod's e-mail test;
  - the S3 presigner and the PUT to the signed URL;
  - the SHA-256 digest;
  - `decodeURIComponent` and `toISOString`;
  - the `userDetailsAction` lookup of the username after an upload.
- OtpActions.OtpNumber uses exact real arithmetic for `Math.floor(100000 + Math.random() * 900000)`, not IEEE doubles.
- String lengths are counted in characters of `seq<char>`, not UTF-16 code units.
- In the error records, an unset property and the empty string render alike. Both are written `""`.
- `Verify` receives its props object in a parameter named `email` (`Verify.tsx:9`). The model takes the email as a string.
- React effect and `startTransition` ordering is modelled by splitting each fetch into a begin step (the guard) and a complete step (the reply). The effect dependencies that trigger a fetch are not modelled.
- The following are not modelled: parallax offsets, scroll geometry (a `nearBottom` flag stands for it), the IntersectionObserver (an `isIntersecting` flag stands for it) and rendering.
- The two-second redirect timer of the forgot-password page is a pending `redirect` value.

## Findings

| source | as written | input that shows it | evidently intended | confidence | as-written member | corrected member |
|---|---|---|---|---|---|---|
| src/middleware.ts:15-16 | `protectedRoutes.includes(path)` compares exactly, so the entry `'/home/*'` matches only the literal text `/home/*` | a signed-out request for `/home` or `/home/search` passes | `/home` and every path under it redirect signed-out users to `/signin` | not executed | Middleware.WildcardIsLiteral | Middleware.IntendedGuardsHomeSubtree |
| src/components/Signin.tsx:59 | the page shows `result.message`, but every failure of `loginAction` carries its text in `error` | email `ada@example.org`, password `abcde`: the server rejects the length, but the page shows "Invalid email or password." | show the server's `error` text | not executed | SigninForm.ServerErrorHidden | SigninForm.IntendedShowsServerError |
| src/components/Singup.tsx:28 | `validateForm` copies `errors` from the previous render, form error included, and its `setErrors` overrides the reset at lines 95-103 | after a failed signup ("Email already exists..."), a valid resubmit still shows that form error | each submit starts from a clean error record | not executed | SignupForm.StaleFormErrorSurvives | SignupForm.IntendedSubmitForgetsHistory |
