# memorie: a Dafny model of the chat core, the API guards and the story pages

This project models the behaviour of memorie, a small story-sharing site. It
has an Express/Prisma API server (realtime chat over socket.io, bearer-token
middleware, sign-up and log-in, posts, comments, likes) and a React client (the
chat page, the feed, the story form, the story card, the post page, and the
`localStorage` token holder). The properties are proved in Dafny 4.11.

The files follow the source, one module per core file:

| Dafny file (module) | source file | form |
|---|---|---|
| `chat_server.dfy` (`ChatServer`) | server/src/routes/chat.js | class `Server`: subscriptions, message, room and membership tables, broadcast log |
| `chat_client.dfy` (`ChatClient`, `ChatScenarios`) | client/src/pages/Chat.jsx | class `ChatPage`, plus runs of pages against a `Server` |
| `auth_middleware.dfy` (`AuthMiddleware`) | server/src/middleware/auth.js | pure `ParseToken`; class `Exchange` for `req.user`, `res` and `next` |
| `auth_routes.dfy` (`AuthRoutes`) | server/src/routes/auth.js | pure `Login`; class `UserTable` with `Signup` |
| `likes.dfy` (`Likes`) | server/src/routes/likes.js | class `LikeTable` whose `Toggle` searches with a loop |
| `posts.dfy` (`Posts`) | server/src/routes/posts.js | class `BlogStore`: posts, comments, category names |
| `comments.dfy` (`Comments`) | server/src/routes/comments.js | guard sequence, then an insert into `BlogStore` |
| `token_store.dfy` (`TokenStore`) | client/src/lib/auth.js | class `LocalStorage` over a string map |
| `story_form.dfy` (`StoryForm`) | client/src/components/StoryForm.jsx | pure `Toggle`; class `FormState` |
| `feed.dfy` (`Feed`) | client/src/pages/Feed.jsx | pure merge and search; class `FeedPage` |
| `post_detail.dfy` (`PostDetail`) | client/src/pages/PostDetail.jsx | pure `ReadTime`; class `DetailPage` |
| `story_card.dfy` (`StoryCard`) | client/src/components/StoryCard.jsx | pure `CardOf` |
| `post_views.dfy` (`PostViews`) | shared by StoryCard.jsx and PostDetail.jsx | post data as the pages get it; badges, word count, minutes |
| `post_scenarios.dfy` (`PostScenarios`) | StoryForm, Feed, PostDetail against the post routes | runs of the pages against a `BlogStore` |
| `common.dfy` (`Common`), `js_strings.dfy` (`JsStrings`) | — | `Option`, JavaScript truthiness, sequence helpers; `split`, `trim`, `toLowerCase`, `includes` |

Modelling choices:

- **Database.** The Prisma database is in-memory sequences kept in insertion
  order. `createdAt` is a clock that goes up by one at every insert, and the
  clock value also serves as the new row's id. Because of this, the
  `orderBy: createdAt` of each query is proved rather than re-implemented. A
  history query is a filter of an ascending table and is proved ascending. A
  listing is that filter reversed and is proved descending.
- **Oracles.** bcrypt hashing and comparison, JWT signing and verification,
  and the client's `atob`/`JSON.parse` of the token payload are function
  parameters. An oracle yields `None` where the original would throw.
- **Atomic steps and awaits.** Each socket event and each HTTP handler is one
  atomic step. A client handler that awaits a request is split into the part
  before the await and the part after it:
  - `BeginJoin`/`HistoryLoaded` on the chat page;
  - `LoadPosts`/`PostsLoaded` on the feed;
  - `BeginSubmit`/`FinishSubmit` on the story form.
- **Request outcomes.** The outcome of a request is a parameter of the step
  that receives it.
- **JavaScript values.** A field that JavaScript tests for truthiness is an
  `Option<string>`. `Present` means a non-empty string.
- **`split(" ")`.** It always gives at least one piece. This is proved, and it
  is why a story card with no text still reads in one minute.
- **What `msg:send` checks.**
  - `msg:send` (server/src/routes/chat.js:11-16) does not check the
    content. An empty content is stored and broadcast like any other.
  - The handler checks only `tokenUser`. A message belongs to a room, so
    the insert on line 13 fails for a `null` room id or an id with no stored
    room. The failure is not caught, so the broadcast on line 16 is never
    reached. `ChatServer.Accepts` therefore asks for a user and a stored
    room, and `ChatServer.Server.Send` stores and broadcasts nothing
    otherwise. What the uncaught failure does to the process is not
    modelled; see "Left out".
- **Authors of new posts.** The 201 answer to `POST /posts` includes the
  categories but not the author. So a post just published shows on the feed
  signed "Anonymous" until the feed is fetched again. This is proved in
  `PostScenarios.PublishToFeed`.

## Model

| member | source | states |
|---|---|---|
| AuthMiddleware.ParseToken | server/src/middleware/auth.js:3-8 | a missing header yields no token; a found token is the part of the header after "Bearer " and contains no space |
| AuthMiddleware.ParseTokenExactly | server/src/middleware/auth.js:3-8 | a token is found exactly when the header is "Bearer " followed by a string without spaces, and the token is that string |
| AuthMiddleware.ParseTokenNeedsOneSpace | server/src/middleware/auth.js:5-6 | a header without exactly one space yields no token |
| AuthMiddleware.ParseTokenLowerCaseScheme | server/src/middleware/auth.js:6 | "bearer x" yields no token: the scheme is case-sensitive |
| AuthMiddleware.ParseTokenTwoSpaces | server/src/middleware/auth.js:5-6 | "Bearer a b" yields no token |
| AuthMiddleware.ParseTokenEmptyToken | server/src/middleware/auth.js:6 | "Bearer " yields the empty token |
| AuthMiddleware.Exchange.Required | server/src/middleware/auth.js:11-20 | no or empty token: 401 "Missing token", no user and no `next`; rejected token: 401 "Invalid token", no `next`; otherwise the payload becomes the user and `next` runs exactly once, with nothing sent |
| AuthMiddleware.Exchange.Optional | server/src/middleware/auth.js:21-27 | `next` runs exactly once and nothing is sent; the user is set only when a non-empty token verifies |
| AuthRoutes.Public | server/src/routes/auth.js:16 | the answer's `user` carries the stored id, username, e-mail and avatar |
| AuthRoutes.Login | server/src/routes/auth.js:19-27 | one field names the user by e-mail or username; the first such user decides; an unknown user and a wrong password give the same 401 "Invalid credentials"; success gives a token for that user's id and username and its public fields only |
| AuthRoutes.LoginAfterSignup | server/src/routes/auth.js:21-26 | a user just added can log in with its e-mail or username and password, unless an older user answers to the same string |
| AuthRoutes.Logout | server/src/routes/auth.js:29-34 | always answers 200 |
| AuthRoutes.UserTable.Signup | server/src/routes/auth.js:8-17 | missing or empty field: 400, table unchanged; e-mail or username taken: 409, table unchanged; otherwise exactly one user with the hashed password is added and the answer has a token and the public fields; ids, e-mails and usernames stay unique |
| ChatServer.Joined | server/src/routes/chat.js:10 | the room's subscribers gain the socket and every other room is unchanged |
| ChatServer.JoinIdempotent | server/src/routes/chat.js:10 | joining twice is the same as joining once |
| ChatServer.RoomHistory | server/src/routes/chat.js:33-35 | an order-preserving subsequence of the message table holding exactly the room's messages |
| ChatServer.HistoryExactAndOrdered | server/src/routes/chat.js:32-37 | a room history holds exactly the room's messages, in ascending `createdAt` |
| ChatServer.Server.Join | server/src/routes/chat.js:10 | the subscription map becomes `Joined` of the old one |
| ChatServer.Server.Send | server/src/routes/chat.js:11-17 | without a user, or without a stored room of the given id, nothing is stored or broadcast; otherwise one message with the given content, room and `senderId = tokenUser.id` is stored first and then broadcast once to exactly the room's current sockets, carrying the stored message and `{ id, username }` from `tokenUser`; every broadcast carries the stored message of the same position |
| ChatServer.Server.CreateRoom | server/src/routes/chat.js:21-25 | 201, `isPrivate` coerced by truthiness, one room row and exactly one membership row for the creator |
| ChatServer.Server.ListRooms | server/src/routes/chat.js:27-30 | every room and only rooms, in strictly descending `createdAt` |
| ChatServer.Server.MessagesOf | server/src/routes/chat.js:32-39 | exactly the room's messages, once each, oldest first, each with its sender's id and username |
| ChatClient.TokenUser | client/src/pages/Chat.jsx:35-37 | no token or no second '.'-segment gives `null`; otherwise the user is the decoding of the second segment |
| ChatClient.RoomLabel | client/src/pages/Chat.jsx:49 | a room without a name shows "Unnamed Room", otherwise its name |
| ChatClient.SenderLabel | client/src/pages/Chat.jsx:58 | a sender without a username shows "user", otherwise the username |
| ChatClient.ChatPage.RoomsLoaded | client/src/pages/Chat.jsx:14 | the room list becomes the fetched rooms |
| ChatClient.ChatPage.BeginJoin | client/src/pages/Chat.jsx:28 | the active room becomes the joined room before the history arrives |
| ChatClient.ChatPage.HistoryLoaded | client/src/pages/Chat.jsx:29-31 | the message list is replaced by the history, and only then is `room:join` emitted |
| ChatClient.ChatPage.OnNew | client/src/pages/Chat.jsx:22 | an incoming message goes at the end, earlier messages unchanged |
| ChatClient.ChatPage.Type | client/src/pages/Chat.jsx:63 | the input becomes the typed text |
| ChatClient.ChatPage.Send | client/src/pages/Chat.jsx:34-40 | emits the active room, the input and the decoded token user, clears the input, and does not touch the message list |
| ChatScenarios.UnknownRoom | server/src/routes/chat.js:11-16 | a user's send to a room id with no stored room is stored and broadcast nowhere, even to a socket that joined that id |
| ChatScenarios.LateJoiner | server/src/routes/chat.js:10-16 | a socket that joins after a broadcast does not receive it; a socket that joined twice receives it once |
| ChatScenarios.Echo | client/src/pages/Chat.jsx:22-40 | two pages in a room, one sends "hello": both lists gain the same single entry with the sender's identity, the sender's through the echo, and the input is cleared |
| ChatScenarios.UndecodableToken | client/src/pages/Chat.jsx:35-38 | a send to a stored room whose token does not decode is stored and broadcast nowhere |
| ChatScenarios.Open | client/src/pages/Chat.jsx:27-32 | opening a room on an idle server: empty history, active room set, `room:join` reaches the server |
| ChatScenarios.TwoPages | client/src/pages/Chat.jsx:27-32 | a room created by a user, and two pages opened in it that are both subscribed to it |
| TokenStore.AfterSet | client/src/lib/auth.js:6-9 | a non-empty value is stored under 'memorie:token', a falsy one removes that key, and no other key changes |
| TokenStore.GetAfterSet | client/src/lib/auth.js:3-9 | reading after a write gives the written token, or nothing after a falsy write |
| TokenStore.SetIdempotent | client/src/lib/auth.js:6-9 | writing the same value twice is the same as once |
| TokenStore.LocalStorage.GetToken | client/src/lib/auth.js:3-5 | reads the 'memorie:token' key and nothing else |
| TokenStore.LocalStorage.SetToken | client/src/lib/auth.js:6-9 | the storage becomes `AfterSet` of the old storage |
| Likes.Toggled | server/src/routes/likes.js:8-15 | a found like is deleted, leaving one row fewer and no new row; otherwise exactly one like with the fresh id is appended; every like of another pair stays |
| Likes.PairsAppend | server/src/routes/likes.js:13 | inserting a like adds exactly its pair |
| Likes.PairsRemove | server/src/routes/likes.js:10 | deleting the one like of a pair removes that pair and no other, and keeps one like per pair |
| Likes.FoundIffLiked | server/src/routes/likes.js:8-9 | the lookup finds a like exactly when the pair is liked |
| Likes.ToggleEffect | server/src/routes/likes.js:8-15 | after a toggle the pair is liked exactly when no like was found; other pairs are untouched; one like per pair is kept |
| Likes.ToggleTwice | server/src/routes/likes.js:8-15 | toggling twice restores the set of liked pairs |
| Likes.LikeTable.Toggle | server/src/routes/likes.js:6-16 | deletes the found like and answers `liked: false`, or inserts one and answers `liked: true`; `liked` is true exactly when the pair is present afterwards; one like per pair is kept |
| Posts.Listing | server/src/routes/posts.js:14-29 | at most the stored posts, holding exactly the posts the category filter admits |
| Posts.ListingExactAndOrdered | server/src/routes/posts.js:14-29 | no (or empty) category lists every post, a category exactly the posts with a category of that name, newest first |
| Posts.ListingAfterCreate | server/src/routes/posts.js:16-19 | a new post heads every listing it belongs to, and the rest of the listing is unchanged |
| Posts.CategoryConnect | server/src/routes/posts.js:75-82 | one connect-or-create link per requested name |
| Posts.ConnectRoundTrip | server/src/routes/posts.js:75-92 | the i-th link is for the i-th name, and the post is linked to exactly the requested names in order |
| Posts.Requested | server/src/routes/posts.js:75-82 | an absent `categories` asks for no names |
| Posts.InsertPostKeeps | server/src/routes/posts.js:84-97 | storing a clock-stamped post whose names enter the category table keeps order, ids, comment ownership and category links intact |
| Posts.BlogStore.List | server/src/routes/posts.js:14-29 | the answer is the listing: exactly the filtered posts, newest first |
| Posts.BlogStore.Get | server/src/routes/posts.js:33-64 | 404 "Not found" exactly for an unknown id; otherwise the post with that id and exactly its comments, oldest first |
| Posts.BlogStore.Create | server/src/routes/posts.js:69-104 | 401 "Auth required" without a user; 500 "Failed to create post" for a non-array `categories`; otherwise one post with the request's fields, `authorId = user.id` and one link per name, the names added to the category table, answer 201; nothing stored on a refusal |
| Comments.EmptyContent | server/src/routes/comments.js:16 | the content guard refuses exactly missing and all-white-space contents |
| Comments.InsertCommentKeeps | server/src/routes/comments.js:20-31 | storing a clock-stamped comment on a stored post keeps the store's invariant |
| Comments.Create | server/src/routes/comments.js:7-38 | 401 first without a user; then 400 for missing or blank content; then 500 for a post that does not exist; otherwise exactly one comment with the path's post id, `authorId = user.id` and the untrimmed content, answer 201; nothing stored on a refusal |
| PostViews.CategoryNames | client/src/components/StoryCard.jsx:13 | exactly the non-empty names of the entries, none when every name is empty |
| PostViews.CategoryNamesAppend | client/src/components/StoryCard.jsx:13 | the names keep the order of the entries |
| PostViews.DisplayCategories | client/src/components/StoryCard.jsx:11-14 | a missing or empty list shows ["General"]; a non-empty list shows its non-empty names |
| PostViews.FallbackOnlyWhenEmpty | client/src/pages/PostDetail.jsx:35-38 | a non-empty list of empty names shows no badge, and "General" appears only as the fallback or as a real category |
| PostViews.Words | client/src/components/StoryCard.jsx:25 | the number of `" "`-pieces is at least one and is the number of spaces plus one |
| PostViews.Minutes | client/src/components/StoryCard.jsx:26 | the fewest whole minutes that cover the words at 180 a minute |
| StoryCard.OrDefault | client/src/components/StoryCard.jsx:4-8 | a non-empty field is shown as it is, anything else as the default |
| StoryCard.CardOf | client/src/components/StoryCard.jsx:3-26 | author, title, text and image are shown when non-empty and otherwise default to "Anonymous", "Untitled Story", "" and the nature picture; badges as `DisplayCategories`; reading time at least one minute and the ceiling of pieces over 180; avatar is the author's first letter upper-cased |
| StoryCard.EmptyStoryReadsInOneMinute | client/src/components/StoryCard.jsx:25-26 | a post without text reads in one minute |
| StoryForm.Toggle | client/src/components/StoryForm.jsx:45-51 | a chosen name is removed (every copy), a new name is appended at the end, and no other name changes membership |
| StoryForm.ToggleKeepsOthersInOrder | client/src/components/StoryForm.jsx:46-50 | the other names keep their relative order |
| StoryForm.ToggleNoDup | client/src/components/StoryForm.jsx:46-50 | a list without duplicates stays without duplicates |
| StoryForm.ToggleTwice | client/src/components/StoryForm.jsx:46-50 | toggling a name twice from a list without it restores the list |
| StoryForm.FormState.CategoriesLoaded | client/src/components/StoryForm.jsx:13-22 | the fetched names, or none on a failure |
| StoryForm.FormState.Edit | client/src/components/StoryForm.jsx:67-81 | the title and text become the typed values |
| StoryForm.FormState.ToggleCategory | client/src/components/StoryForm.jsx:45-51 | the chosen names become `Toggle` of the old ones |
| StoryForm.FormState.BeginSubmit | client/src/components/StoryForm.jsx:25-34 | the form is busy, the error is cleared, and the body carries title, text and chosen names |
| StoryForm.FormState.FinishSubmit | client/src/components/StoryForm.jsx:35-41 | never busy afterwards; a failure shows the server's error or "Failed to publish"; a success hands on the created post |
| Feed.NewNames | client/src/pages/Feed.jsx:60-62 | the post's non-empty names, or none if `categories` is not an array |
| Feed.Merge | client/src/pages/Feed.jsx:65-68 | each name once, exactly the old and the new names; the old names, each once, keep their place at the front; a duplicate-free old list is kept unchanged at the front and followed by the names it lacked, each once, in the order they first occur |
| Feed.Matches | client/src/pages/Feed.jsx:74-78 | a post with neither title nor text never matches; with an empty query every other post does |
| Feed.Visible | client/src/pages/Feed.jsx:72-80 | an order-preserving subsequence holding exactly the posts whose lower-cased title or text includes the lower-cased query; nothing for a non-array |
| Feed.VisibleCount | client/src/pages/Feed.jsx:72-80 | a matching post is shown as many times as the list holds it, a post that does not match never |
| Feed.SearchIgnoresCase | client/src/pages/Feed.jsx:74-77 | the query's case does not matter |
| Feed.EmptySearch | client/src/pages/Feed.jsx:72-80 | an empty query keeps exactly the posts with a title or a text |
| Feed.ChipTarget | client/src/pages/Feed.jsx:142 | clicking the active chip clears it, any other chip selects that one |
| Feed.ChipTwice | client/src/pages/Feed.jsx:142 | two clicks on one chip come back to no selection |
| Feed.RequestParam | client/src/pages/Feed.jsx:23 | a request carries a category query exactly when the category is a non-empty string |
| Feed.FeedPage.Shown | client/src/pages/Feed.jsx:72-80 | the page shows an order-preserving subsequence of its posts holding exactly those that match its lower-cased search; nothing for a non-array |
| Feed.FeedPage.LoadPosts | client/src/pages/Feed.jsx:19-24 | loading starts and one request with that category query is issued |
| Feed.FeedPage.PostsLoaded | client/src/pages/Feed.jsx:25-30 | the list becomes the fetched value, or stays on a failure; loading ends either way |
| Feed.FeedPage.CategoriesLoaded | client/src/pages/Feed.jsx:34-41 | the chips become the fetched names, or stay on a failure |
| Feed.FeedPage.OnCreated | client/src/pages/Feed.jsx:56-69 | the new post goes first with the old posts after it in order, and the chips become the merge of the old ones and the post's names |
| Feed.FeedPage.ClickChip | client/src/pages/Feed.jsx:141-145 | the active category becomes `ChipTarget` and posts are requested for it |
| Feed.FeedPage.Reset | client/src/pages/Feed.jsx:93-97 | no category, no search, and all posts requested |
| Feed.FeedPage.TypeSearch | client/src/pages/Feed.jsx:110 | the search becomes the typed text |
| PostDetail.ReadTime | client/src/pages/PostDetail.jsx:32-33 | no text reads in 0 minutes; any text, even empty, in at least one minute, the ceiling of pieces over 180 |
| PostDetail.WithComment | client/src/pages/PostDetail.jsx:18 | the comment goes at the end and every other field of the post stays |
| PostDetail.DetailPage.Loaded | client/src/pages/PostDetail.jsx:10-12 | the page holds the fetched post |
| PostDetail.DetailPage.TypeComment | client/src/pages/PostDetail.jsx:92 | the input becomes the typed text |
| PostDetail.DetailPage.AddComment | client/src/pages/PostDetail.jsx:14-20 | a blank input sends nothing and changes nothing; otherwise the input is sent as typed, and the answer is appended and the input cleared, or on a failure nothing changes |
| PostScenarios.CreatedView | server/src/routes/posts.js:84-99 | the 201 answer shows the post's id, title, text, image and category names, with no author and no comments |
| PostScenarios.PublishToFeed | client/src/components/StoryForm.jsx:25-41 | publishing stores one post by the user with the form's values; the form ends idle without error; the feed shows it first, signed "Anonymous", and gains chips for its non-empty names |
| PostScenarios.CommentFromPage | client/src/pages/PostDetail.jsx:14-20 | a non-blank comment is stored untrimmed under the page's post and shown at the end of its comments, and the input is cleared |

## Left out

- Socket transport: connection set-up, websocket options, reconnection, `disconnect`, and leaving rooms on disconnect are library behaviour. Subscriptions only grow in this model.
- Asynchrony: interleaved `await`s, concurrent `msg:send` handlers, the find-then-create race in the like toggle, stale responses overwriting newer ones on the feed, and React effect scheduling. Each handler, and each half of an awaited handler, is one atomic step.
- Prisma `include`/`select` projections (author `avatarUrl`, `_count` of likes and comments) are not modelled. History senders come from a `usernameOf` parameter.
- Database failures are modelled in two places only: the comment on a missing post, and a chat message for a `null` or unknown room. Other failures are not modelled: a failing `findUnique`, the like table's foreign keys, a message whose `tokenUser.id` names no user row, a room whose creator row is gone, and constraint errors on duplicate category names in one request.
- Posts.BlogStore.Create: does not model schema-level failures for a missing `title` or `content`, because the schema is not part of this model. The fields are stored as given.
- ChatServer.Server.Send: the refusal of a `null` or unknown room follows from the message's required room relation, and the schema is not part of this model. The handler itself only checks `tokenUser`.
- ChatServer.Server.Send: a failed insert is a rejected promise in an `async` socket listener with no `try`/`catch`, and server/src/index.js:1-38 installs no `unhandledRejection` handler. Under Node's default settings since version 15 that ends the server process, with every subscription and connection. The model instead carries on with its state unchanged. A send before any room is chosen reaches this: the page's room id starts as `null` (client/src/pages/Chat.jsx:8) and the Send button is always enabled.
- ChatServer.Server.Send: a `tokenUser` is whatever the client sends (client/src/pages/Chat.jsx:35-38). A `tokenUser.id` with no user row fails the insert through the `senderId` relation, but `Accepts` stores such a message, because the chat server keeps no user table in this model.
- The chat HTTP routes (server/src/routes/chat.js:21-39) and the like toggle (server/src/routes/likes.js:6-16) have no `try`/`catch` either. Under Express 4, a database failure there is also an unhandled rejection that can end the process. The Express version is not part of this model, and those failures are not modelled.
- Feed.FeedPage.OnCreated: requires the list to be an array. On a non-array list the spread `[p, ...prev]` throws, and that is not modelled.
- PostDetail.DetailPage.AddComment: requires the post to be loaded. The form is rendered only then.
- Log-in with a missing `emailOrUsername` (Prisma drops `undefined` filters) is not modelled. The log-in key is a string.
- Request fields that are not strings (for example a numeric `content`, on which `trim` throws) are not modelled. Category entries that are `null` are read as entries without a name.
- `bcrypt`, `jsonwebtoken`, `atob` and `JSON.parse` are oracles given as parameters.
- Cookies, token expiry and `clearCookie` are not modelled.
- `toLowerCase`, `toUpperCase` and `trim` are modelled over ASCII only, and date formatting (`toLocaleDateString`, `toLocaleString`) is left out. Both are locale- and Unicode-dependent.
- StoryCard.CardOf: the avatar is the upper-cased first Unicode scalar value of the name. `charAt(0)` takes one UTF-16 code unit instead, and the two differ for a name whose first character lies outside the Basic Multilingual Plane.
- `Math.ceil(words / 180)` is modelled as exact integer ceiling division. The floating-point quotient gives the same result for every word count below 2^53.
- `findFirst` with several matches is taken to return the first match in insertion order.
- The `GET /categories` handler in server/src/routes/posts.js:106-111 is unreachable behind `GET /:id` and is not modelled.
- server/src/routes/categories.js is not part of this model. Both pages fetch from it; the fetch itself is not modelled, and its answer is a parameter.
- The navigation bar removes a key "token" on log-out, not 'memorie:token'. It is not part of this model.
- Layout and wiring files are not part of this model: Home, Navbar, App, main, Login and Signup pages, and the server entry point.
- Rendering details are not modelled: images, the loading skeleton, the compose query parameter, the modal's open state, and the "Publishing…" label.
