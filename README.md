# social_media-new: a verified model of the client core

social_media-new is a React and TypeScript social-feed client. This project models its core in
Dafny:

- **Media helpers (`services/cloudinary.ts`):**
  - the checks made before an upload request;
  - the transformation URLs (optimized, thumbnail, medium);
  - the public-id extraction by regular expression;
  - the carousel id list and the configuration check.
- **Image compression (`utils/imageCompression.ts`):** the canvas sizing, the one-shot quality
  step-down, the failure modes of compressImage, and compressImages.
- **Path builders:** `utils/router.ts` and `utils/assets.ts`.
- **Client state of the views and components:**
  - the feed, the admin dashboard and the admin list;
  - the post modal, the share modal and the create-post form;
  - the goals tracker, the chat window, and the application root with its signed-in user.

One Dafny module stands for each source file. `Types` holds the shapes of `types.ts` and the
Option/Result wrappers. `Lists` and `Strings` hold the JavaScript primitives the code relies on
(`filter`, `includes`, `indexOf`, `split`, `replace`, `trim`, `join`, decimal formatting).

How the source is represented:

- **Components that hold React state** become classes. The fields are the state variables; each
  handler is a method whose `ensures` gives the whole new state.
- **Pure helpers** become functions and lemmas.
- **Backend calls** (Firestore, the upload endpoint) become outcome parameters: `bool`,
  `Option<…>` or a response datatype.
- **Browser services** become parameters:
  - `window.location` and the hostname;
  - `JSON.parse`, as a parse function returning an `Option` of a JSON datatype;
  - `encodeURIComponent`, as an opaque function;
  - FileReader, Image, canvas and toBlob, as a `Browser` record of functions.

In two places the code does less than its names or comments suggest. The model follows the code
and proves where the two part:

- **Image sizing.** compressImage's options `maxWidth` and `maxHeight` read as bounds on the
  result. The code only fits the side its landscape test picks. `UnequalBoundsOverflow` and
  `PortraitUpscale` show the other side overflowing, or the image being enlarged.
  `EqualBoundsFit` proves both bounds hold when they are equal, which includes the defaults.
- **Public ids.** getPublicIdFromUrl's comment says transformation prefixes are removed. Its
  regular expression keeps them. `PublicIdKeepsTransformation` proves that the id of an
  optimized URL differs from the id of the original.

## Model

| member | source | states |
|---|---|---|
| Cloudinary.UploadToCloudinary | services/cloudinary.ts:15-59 | the request is sent iff the file is at most 5 MiB and its type is one of the five allowed image types; an oversize file is rejected with the size message whatever its type, an allowed-size file of another type with the type message; the result is a URL exactly when the request was sent and the endpoint answered with one, and it is that URL |
| Cloudinary.UploadLimitBoundary | services/cloudinary.ts:17-25 | a file of exactly 5 MiB passes the size check; one byte more is rejected with the size message whatever the type |
| Cloudinary.ValidateCloudinaryConfig | services/cloudinary.ts:243-260 | passes iff the cloud name is neither the placeholder "YOUR_CLOUD_NAME" nor empty |
| Cloudinary.TransformationParts | services/cloudinary.ts:127-141 | the parts come in the fixed order w_, h_, c_, q_, f_; w_ and h_ appear only for a given non-zero size; crop, quality and format default to fill, auto and auto |
| Cloudinary.PartsAreTransformChars | services/cloudinary.ts:127-141 | every part is made of lower-case letters, digits, '_' and ',', and the first part starts with w, h or c |
| Cloudinary.Transformation | services/cloudinary.ts:143 | the joined transformation has at least two characters, all lower-case letters, digits, '_' or ',' (so no '/'), and starts with w, h or c, so it never reads as a version segment |
| Cloudinary.ThumbnailTransformation | services/cloudinary.ts:154-161 | the thumbnail preset is exactly "w_200,h_200,c_fill,q_auto,f_auto" |
| Cloudinary.MediumTransformation | services/cloudinary.ts:168-175 | the medium preset is exactly "w_800,h_600,c_fit,q_auto,f_auto" |
| Cloudinary.InsertAfterFirstMarker | services/cloudinary.ts:146 | replacing the first "/upload/" keeps the text before its first occurrence and puts the transformation and a '/' right after it, with the rest of the URL unchanged |
| Cloudinary.GetOptimizedImageUrl | services/cloudinary.ts:113-147 | an empty URL, a URL without "cloudinary" or one without "/upload/" comes back unchanged; otherwise the transformation is inserted after the first "/upload/" only |
| Cloudinary.GetThumbnailUrl | services/cloudinary.ts:154-161 | as the optimized URL, with the thumbnail transformation inserted |
| Cloudinary.GetMediumImageUrl | services/cloudinary.ts:168-175 | as the optimized URL, with the medium transformation inserted |
| Cloudinary.ExtensionUnique | services/cloudinary.ts:192 | a segment has at most one final ".word" extension position |
| Cloudinary.ExtensionDot | services/cloudinary.ts:192 | finds the dot of the final extension when there is one, and reports none only when no position qualifies |
| Cloudinary.MatchStart | services/cloudinary.ts:192 | the leftmost match starts right after the last line terminator before the extension, since '.' does not cross line terminators |
| Cloudinary.VersionPrefixLength | services/cloudinary.ts:192 | the optional prefix is 'v', at least one digit and '/', and is absent when the text does not start with 'v' |
| Cloudinary.MatchPublicId | services/cloudinary.ts:192-197 | no match iff the segment has no final extension |
| Cloudinary.MatchWithoutLineTerminators | services/cloudinary.ts:192-197 | on a segment without line terminators, the id is the text before the extension with a leading "v<digits>/" removed |
| Cloudinary.GetPublicIdFromUrl | services/cloudinary.ts:182-198 | null without "/upload/"; otherwise the match on the text between the first and the second "/upload/" |
| Cloudinary.SegmentAfter | services/cloudinary.ts:187-190 | the split segment is exactly the text after the first "/upload/" when no second one follows |
| Cloudinary.PublicIdOfUploadUrl | services/cloudinary.ts:182-198 | a versioned upload URL ".../upload/v<n>/<id>.<ext>" yields exactly <id> |
| Cloudinary.NoMarkerAfterTransformation | services/cloudinary.ts:146 | inserting a transformation creates no new "/upload/" |
| Cloudinary.OptimizedUrlShape | services/cloudinary.ts:113-147 | an optimized upload URL is the prefix, "/upload/", the transformation, '/' and the original segment |
| Cloudinary.MatchAfterTransformation | services/cloudinary.ts:191-194 | the match on a transformed segment keeps the transformation in front of the id |
| Cloudinary.PublicIdKeepsTransformation | services/cloudinary.ts:185-194 | the id of an upload URL is its stripped segment; the id of its optimized URL carries the transformation prefix; the two ids differ, contrary to the comment at line 191 |
| Cloudinary.CarouselUrls | services/cloudinary.ts:207-208 | the items exist iff the parsed value is an object whose `urls` is an array, and they are that array |
| Cloudinary.PublicIds | services/cloudinary.ts:209-211 | never longer than the items; every item with an id contributes it, and every result comes from an item |
| Cloudinary.PublicIdsConcat | services/cloudinary.ts:209-211 | the ids of two lists joined are the ids of each in order, so the result is the in-order subsequence of non-null ids |
| Cloudinary.GetPublicIdsFromCarousel | services/cloudinary.ts:205-217 | [] on a parse failure or a missing or non-array `urls`; otherwise the ids of the items, never more than the items |
| ImageCompression.Resolve | utils/imageCompression.ts:23-28 | each given option is used as given |
| ImageCompression.DefaultSettings | utils/imageCompression.ts:23-28 | without options the settings are 1920 x 1920, quality 0.85 and 1 MB |
| ImageCompression.TargetDimensions | utils/imageCompression.ts:38-51 | an image within both bounds keeps its size; past a bound a landscape image gets the maximum width, and a portrait or square one the maximum height |
| ImageCompression.AspectRatioPreserved | utils/imageCompression.ts:42-50 | in exact arithmetic the new size has the image's aspect ratio |
| ImageCompression.EqualBoundsFit | utils/imageCompression.ts:41-51 | with equal bounds the new size fits both |
| ImageCompression.UnequalBoundsOverflow | utils/imageCompression.ts:41-51 | with unequal bounds the other side can exceed its bound: 500 x 400 under 1000 x 100 becomes 1000 x 800 |
| ImageCompression.PortraitUpscale | utils/imageCompression.ts:41-51 | a portrait image over the width bound only is enlarged to the height bound |
| ImageCompression.CompressImage | utils/imageCompression.ts:19-137 | a read failure, a load failure, a missing canvas context and a null blob each reject with their own error; a result keeps the file name, has type image/jpeg and the computed size; it is encoded a second time iff the first blob is over maxSizeMB and the quality is above 0.5, then at quality - 0.2, and that blob is accepted whatever its size; it succeeds exactly when the file reads, the image loads, the context exists, the first blob is produced and, when a second pass is needed, the second blob is produced |
| ImageCompression.CompressImages | utils/imageCompression.ts:145-151 | succeeds iff every file compresses, with one result per file in order, each that file's result; a failure is the failure of one of the files |
| Router.RouteText | utils/router.ts:2-10 | every route is an absolute path |
| Router.RouteTextInjective | utils/router.ts:2-10 | distinct routes have distinct paths |
| Router.BuildPath | utils/router.ts:19-22 | the path is the base path followed by the route |
| Router.BuildPathIsRoute | utils/router.ts:13-22 | with the deployed empty base path the path is the route itself |
| Router.GetRouteFromPath | utils/router.ts:25-31 | the pathname is unchanged when the base is empty or not a prefix; otherwise the base is removed, and an empty remainder becomes "/" |
| Router.RouteRoundTrip | utils/router.ts:19-31 | reading back a built path gives the route, whatever the base path |
| Router.GetCurrentRoute | utils/router.ts:55-57 | with the deployed base path the current route is the pathname |
| Assets.CleanPathStripsOnce | utils/assets.ts:8 | only one leading '/' is removed: "//x" becomes "/x" |
| Assets.GetAssetPath | utils/assets.ts:3-17 | always an absolute path; on a github.io host "/social_media-new/" followed by the clean path, elsewhere "/" followed by it |
| Assets.LeadingSlashIrrelevant | utils/assets.ts:8-16 | "p" and "/p" name the same asset |
| Assets.IdempotentOffGitHub | utils/assets.ts:8-16 | off GitHub Pages an asset path is its own asset path |
| Assets.NotIdempotentOnGitHub | utils/assets.ts:8-13 | on GitHub Pages applying it twice nests the base path |
| ShareModal.PostUrl | components/feed/ShareModal.tsx:15 | the link is the origin and path, then "?post=", then the post id |
| ShareModal.PostIdRecoverable | components/feed/ShareModal.tsx:15 | on one page, different posts have different links |
| ShareModal.ShareText | components/feed/ShareModal.tsx:30 | the share text is the first 100 characters of the content, or all of a shorter one |
| ShareModal.Template | components/feed/ShareModal.tsx:33-52 | an unknown platform gives ""; each of the six platforms gives a non-empty URL starting with its own fixed endpoint |
| ShareModal.TemplateCarriesUrl | components/feed/ShareModal.tsx:33-52 | every platform's template contains the post URL it is given |
| ShareModal.TemplateCarriesText | components/feed/ShareModal.tsx:40-49 | the Twitter, Telegram and e-mail templates contain the text they are given |
| ShareModal.TemplateCarriesTitle | components/feed/ShareModal.tsx:34-51 | the WhatsApp and e-mail templates contain the title, placed right after their endpoint |
| ShareModal.ShareUrl | components/feed/ShareModal.tsx:27-52 | an unknown platform gives ""; each of the six platforms gives a non-empty URL starting with its own fixed endpoint |
| ShareModal.ShareUrlCarriesPostUrl | components/feed/ShareModal.tsx:29-52 | every platform's URL contains the encoded post link |
| ShareModal.ShareUrlCarriesText | components/feed/ShareModal.tsx:30-49 | the Twitter, Telegram and e-mail URLs contain the encoded share text |
| ShareModal.ShareUrlCarriesTitle | components/feed/ShareModal.tsx:31-51 | the WhatsApp and e-mail URLs contain the encoded title "Post by " and the author, right after their endpoint |
| ShareModal.HandleShare | components/feed/ShareModal.tsx:27-58 | a window opens, on the share URL, iff the platform is known; onClose is called in every case |
| ShareModal.View | components/feed/ShareModal.tsx:13-15 | nothing is rendered when the modal is closed; otherwise it shows the post link |
| PostModal.CarouselOf | components/feed/PostModal.tsx:99-110 | the media is a carousel iff the URL is present, non-empty and parses to an object with an array `urls`; every other case is the single-media path |
| PostModal.SlideStepsAreModular | components/feed/PostModal.tsx:121-131 | with n slides, next moves to (i+1) mod n and prev to (i-1+n) mod n, both staying in range |
| PostModal.SlideStepsAreInverse | components/feed/PostModal.tsx:121-131 | next then prev, and prev then next, return to the same slide |
| PostModal.AspectRatioClass | components/feed/PostModal.tsx:112-119 | "1:1", "16:9" and "9:16" each get their own class, and exactly the other strings get "aspect-auto" |
| PostModal.LikeUpdate | components/feed/PostModal.tsx:58-63 | an unlike removes every copy of the user id and keeps the other ids, a like appends it; the count moves by one; nothing else in the post changes |
| PostModal.LikeThenUnlike | components/feed/PostModal.tsx:58-63 | a like followed by an unlike restores the post with its starting count |
| PostModal.CommentUpdate | components/feed/PostModal.tsx:79-83 | the reported post has one more comment and is otherwise unchanged |
| PostModal.PostModalState.constructor | components/feed/PostModal.tsx:17-23 | liked iff the user is among the likes, the post's count, no comments, the first slide, slide in range |
| PostModal.PostModalState.LoadComments | components/feed/PostModal.tsx:38-48 | fetched comments replace the list, a failed fetch keeps it, loading ends false |
| PostModal.PostModalState.HandleLike | components/feed/PostModal.tsx:50-68 | no user or a failed toggle changes nothing and reports nothing; otherwise the like flips, the count moves by one and the updated post is reported |
| PostModal.PostModalState.HandleAddComment | components/feed/PostModal.tsx:70-88 | sends iff there is a user and the trimmed text is non-empty, and sends the untrimmed text; on success appends the comment, clears the input and reports one more comment; otherwise nothing changes |
| PostModal.PostModalState.HandlePrevSlide | components/feed/PostModal.tsx:121-125 | keeps the slide in range; steps back with wrap-around on a carousel, and changes nothing otherwise |
| PostModal.PostModalState.HandleNextSlide | components/feed/PostModal.tsx:127-131 | keeps the slide in range; steps forward with wrap-around on a carousel, and changes nothing otherwise |
| FeedView.ReplaceById | views/FeedView.tsx:50-54 | same length; each post whose id matches is replaced by the update, every other post is unchanged |
| FeedView.ReplaceByIdKeepsIds | views/FeedView.tsx:50-54 | every position keeps its post id |
| FeedView.ReplaceUnknownId | views/FeedView.tsx:50-54 | an update whose id is not in the list changes nothing |
| FeedView.ReplaceByIdIdempotent | views/FeedView.tsx:50-54 | applying the same update twice is applying it once |
| FeedView.FilteredPosts | views/FeedView.tsx:56-58 | "all" is the list itself; "following" keeps exactly the posts of followed authors |
| FeedView.FollowingWithoutUser | views/FeedView.tsx:58 | without a user the "following" feed is empty |
| FeedView.FollowingKeepsOrder | views/FeedView.tsx:58 | the "following" feed keeps the posts' order |
| FeedView.FeedViewState.constructor | views/FeedView.tsx:12-16 | no posts, loading, not refreshing, the "all" filter, no selected post |
| FeedView.FeedViewState.FetchPosts | views/FeedView.tsx:18-33 | fetched posts replace the list, a failed fetch keeps it; loading and refreshing both end false |
| FeedView.FeedViewState.SelectFromQuery | views/FeedView.tsx:38-43 | a non-empty `post` parameter selects that post; otherwise nothing changes |
| FeedView.FeedViewState.HandlePostCreated | views/FeedView.tsx:46-48 | the new post goes first and the others follow in order |
| FeedView.FeedViewState.HandlePostUpdate | views/FeedView.tsx:50-54 | the list becomes the replaced list, of the same length |
| AdminView.OwnPosts | views/AdminView.tsx:11-15 | exactly the fetched posts written by the user, none without a user |
| AdminView.OwnPostsKeepOrder | views/AdminView.tsx:11-15 | the filtered list keeps the fetched order |
| AdminView.View | views/AdminView.tsx:27-34 | the access-denied screen iff the user is not an admin, whatever the posts |
| AdminView.AdminViewState.LoadPosts | views/AdminView.tsx:11-21 | a fetch is made iff there is a user; its success shows the user's own posts, and otherwise nothing changes |
| AdminView.AdminViewState.HandlePostCreated | views/AdminView.tsx:23-25 | the new post is prepended |
| GoalsTracker.AddedGoals | components/profile/GoalsTracker.tsx:77-81 | a list is sent iff the trimmed input is non-empty and not already a goal, and it is the goals with the trimmed input appended |
| GoalsTracker.AddedGoalsKeepNoDuplicates | components/profile/GoalsTracker.tsx:79-80 | adding a typed goal keeps the list free of duplicates |
| GoalsTracker.SuggestedGoals | components/profile/GoalsTracker.tsx:86-89 | sent iff the trimmed suggestion is non-empty and the suggestion as given is not a goal; the trimmed one is appended |
| GoalsTracker.SuggestedGoalCanDuplicate | components/profile/GoalsTracker.tsx:86-91 | " Run" suggested to ["Run"] gives ["Run", "Run"], a duplicate |
| GoalsTracker.RemoveAt | components/profile/GoalsTracker.tsx:93-96 | exactly the element at the index is removed, the rest kept in order; an out-of-range index leaves the list unchanged |
| GoalsTracker.RemoveAtKeepsNoDuplicates | components/profile/GoalsTracker.tsx:93-96 | removing keeps the list free of duplicates |
| GoalsTracker.GoalsTrackerState.UpdateGoalsInBackend | components/profile/GoalsTracker.tsx:63-75 | without a user nothing happens; the goals change only when the backend accepts, and loading ends false |
| GoalsTracker.GoalsTrackerState.HandleAddGoal | components/profile/GoalsTracker.tsx:77-84 | the goals become the added list only when it was sent and accepted; the input is cleared iff a list was sent; loading ends false iff a list was sent with a user signed in, and is otherwise unchanged; no duplicates stay so |
| GoalsTracker.GoalsTrackerState.HandleAddSuggestedGoal | components/profile/GoalsTracker.tsx:86-91 | the goals become the suggested list only when it was sent and accepted; loading ends false iff a list was sent with a user signed in, and is otherwise unchanged; the input is untouched |
| GoalsTracker.GoalsTrackerState.HandleRemoveGoal | components/profile/GoalsTracker.tsx:93-96 | the goals lose the element at the index when the backend accepts; loading ends false iff a user is signed in, and is otherwise unchanged; no duplicates stay so |
| App.ApplyUpdate | App.tsx:60-64 | each supplied field replaces the user's, every other field and the id are kept |
| App.ApplyUpdateLaws | App.tsx:60-64 | an empty update changes nothing, two updates in a row are their merge, and repeating an update changes nothing more |
| App.FollowedUser | App.tsx:66-70 | the id is appended to the following list with no membership check; nothing else changes |
| App.UnfollowedUser | App.tsx:72-76 | every copy of the id leaves the following list; every other id keeps its number of copies; the list is the order-keeping RemoveAll of the old one; nothing else changes |
| App.UnfollowKeepsOthersInOrder | App.tsx:75 | unfollowing an id followed once between other ids leaves exactly those ids, in their order |
| Lists.RemoveAll | App.tsx:75 | the result is no longer than the list, never holds the removed value, and holds every other value the list holds |
| Lists.RemoveAllConcat | App.tsx:75 | removal keeps relative order: it distributes over concatenation |
| Lists.RemoveAllCounts | App.tsx:75 | removal drops every copy of the value and keeps every copy of each other value |
| Lists.RemoveOnlyCopy | App.tsx:75 | removing the only copy of a value closes the gap, leaving the rest in order |
| App.FollowThenUnfollow | App.tsx:69-75 | following an id not yet followed and then unfollowing it restores the user |
| App.ArrayUnion | services/firebase.ts:122-127 | the stored list gains the id only when it is absent |
| App.DoubleFollowDiverges | services/firebase.ts:122-127 | following twice duplicates the id in the local list but not in the stored one |
| App.AppState.constructor | App.tsx:13-15 | no user, loading, the feed page |
| App.AppState.OnAuthStateChanged | App.tsx:19-32 | the formatted profile when signed in, no user on sign-out or a profile error; loading ends false |
| App.AppState.SignIn | App.tsx:36-52 | a returned user becomes the current user; a failed call changes nothing |
| App.AppState.Logout | App.tsx:54-58 | after sign-out there is no user and the page is the feed |
| App.AppState.UpdateUserState | App.tsx:60-64 | the supplied fields replace the user's; no effect without a user |
| App.AppState.Follow | App.tsx:66-70 | no effect without a user; otherwise the id is appended locally at once, and the stored list is the arrayUnion of it |
| App.AppState.Unfollow | App.tsx:72-76 | no effect without a user; otherwise every copy is dropped locally, and the stored list is the arrayRemove of it |
| App.AppState.UpdateProfile | App.tsx:78-82 | after the backend accepts, the supplied profile fields replace the user's; otherwise nothing changes |
| UsersView.VisibleAdmins | views/UsersView.tsx:18-20 | exactly the fetched admins other than the current user |
| UsersView.VisibleAdminsKeepOrder | views/UsersView.tsx:18-20 | listing keeps the fetched order: listing a concatenation is the concatenation of the two listings |
| UsersView.VisibleAdminsWithoutUser | views/UsersView.tsx:20 | without a user every fetched admin is listed, in order |
| UsersView.ToggleFlipsFollowing | views/UsersView.tsx:46 | nobody is followed without a user; follow makes the admin followed, unfollow not, and other admins are unaffected |
| UsersView.HandleFollowToggle | views/UsersView.tsx:31-37 | unfollows iff the admin is followed, follows otherwise; no effect without a user |
| UsersView.UsersViewState.FetchAdmins | views/UsersView.tsx:14-29 | the visible admins replace the list on success, a failure keeps it; loading ends false |
| CreatePostForm.MediaTypeOf | components/feed/CreatePostForm.tsx:25 | image iff the MIME type starts with "image", video otherwise |
| CreatePostForm.UploadableTypesAreImages | components/feed/CreatePostForm.tsx:25 | every type the upload accepts is classed as an image; "video/mp4" as a video |
| CreatePostForm.CreatePostFormState.HandleFileChange | components/feed/CreatePostForm.tsx:21-27 | a chosen file is kept with its media type; with no file nothing changes |
| CreatePostForm.CreatePostFormState.HandleSubmit | components/feed/CreatePostForm.tsx:29-66 | blank content or no user does nothing. Otherwise: an upload only when a file is selected; createPost gets the author, the untrimmed content, the URL and the type; success reports the post and resets the form; any failure sets the fixed message and keeps the form; loading ends false |
| Strings.TrimProperties | components/chat/ChatWindow.tsx:32 | a trimmed string is no longer than the original, is empty exactly when the original is all white space (the blank test of the input handlers), and neither starts nor ends with white space |
| ChatWindow.OtherParticipant | components/chat/ChatWindow.tsx:20 | the first participant whose id differs from the current user's, none iff there is no such participant |
| ChatWindow.TwoPartyChat | components/chat/ChatWindow.tsx:20 | in a chat of two distinct users each sees the other |
| ChatWindow.ChatWindowState.OnChatChanged | components/chat/ChatWindow.tsx:22-24 | the messages reset to the new chat's messages |
| ChatWindow.ChatWindowState.HandleSendMessage | components/chat/ChatWindow.tsx:30-41 | sends iff the trimmed input is non-empty and there is a user, with the untrimmed text; a returned message is appended and the input cleared; otherwise nothing changes |

## Left out

- **Network and backend:**
  - The `fetch` of uploadToCloudinary is an abstract response parameter.
  - uploadToCloudinaryWithProgress (XHR and floating-point progress) is not modelled.
  - deleteFromCloudinary only logs, and is not modelled.
  - Firebase and Firestore calls are outcome parameters; services/firebase.ts is not part of this model, except the arrayUnion and arrayRemove list semantics.
- **Browser APIs and effects:**
  - FileReader, Image, canvas and toBlob are parameters.
  - The integer truncation of canvas sizes is not modelled.
  - Also left out: timers, the clipboard and its "copied" flag, `window.open` (its URL is returned instead), `window.history` in push/replace/back, `document.body.style`, scrolling and the DOM file-input reset.
- **Parameters instead of implementations:** JSON.parse and encodeURIComponent are parameters, not implemented.
- **Promise ordering.** compressImages is all-or-nothing, with the first failing file (in list order) as its error. With `Promise.all` the first rejection in time wins.
- **Image sizes and qualities are exact reals.** Floating-point rounding is not modelled. Zero-size images, which give Infinity or NaN in JavaScript, are excluded by the positive size type.
- ImageCompression.TargetDimensions: does not claim the result fits both bounds, because the code does not guarantee it (see UnequalBoundsOverflow).
- Cloudinary.TransformationParts: the transformation width, height and numeric quality are natural numbers. The TypeScript `number` also admits negative and fractional values, which would be written into the URL as they are; those inputs are not modelled.
- formatFileSize and getCompressionRatio: not modelled; they are floating-point logarithm and rounding formatting.
- **String lengths are counted in characters.** `substring(0, 100)` counts UTF-16 code units.
- ShareModal.HandleShare: `encodeURIComponent` is modelled as a total function. In the browser it throws URIError on a lone surrogate, which `substring(0, 100)` leaves when it cuts a surrogate pair at code units 99-100. Such a handleShare call throws before `window.open` and before `onClose`. The model does not capture that case, so its promise that onClose is always called holds only for content without such a cut.
- **Not modelled:** the goal suggestion button's Gemini call and its alerts; PostModal's share counter (incrementShareCount) and share-modal toggle; the feed's filter setter; the per-slide aspect ratios, which are only used for rendering.
- **ChatWindow's render guard** (line 43) is the predicate `ChatWindowState.Renders`. It states no property of its own.
- **Creation timestamps** (`createdAt`, `lastModified`) are not modelled.
- **App.ApplyUpdate:** an update whose field is present but explicitly `undefined` is not modelled. Spreading one erases the field, but `None` keeps it.
- **Loading flags:** the `loading` flag set before an await and reset after it is modelled only by its final value.
