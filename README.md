# CHATAPP client updaters, OTP login and chat service handlers in Dafny

This project models the sequential rules of a two-party chat application:

- **Chat screen** (`ChatPage`): the React state updaters that run when a message arrives or has been sent.
  - `moveChatToTop` reorders the chat list.
  - `resetUnseenCount` zeroes one chat's unseen counter.
  - Two updaters append a message unless its id is already present.
  - The seen-receipt updater marks the user's own messages as seen.
  - The send guard decides whether a message is posted at all.
  - The typing-indicator filters raise or lower the "typing" flag.
  - The `newMessage` and `messageSeen` handlers are registered inside the `userTyping` handler, one more pair per typing event, and removed when the selection, the socket or the logged-in user id changes; the client state counts them. The selection keeps `null`, `undefined` and a chat id apart, as React does when deciding whether an effect re-runs.
- **OTP entry widget** (`VerifyOtp`): six single-digit cells, with per-cell edit, paste, the completeness check before submit, the resend countdown and its `m:ss` label.
- **Login form** (`LoginPage`): the email pattern `^[^\s@]+@[^\s@]+\.[^\s@]+$`, the error shown after each edit, and the order of the submit guards.
- **User service** (`UserController`):
  - `loginUser` and `verifyuser` work over a Redis-style key-value store with expiry and a user table.
  - A rate-limit key lives 60 s. A one-shot OTP key lives 300 s.
  - Verification finds or creates the user.
  - The guard chains of `myProfile`, `updateUser` and `getUsers` are modelled too.
- **Chat service** (`ChatController`):
  - `createNewChat` finds or creates a chat for a pair of users.
  - `getAllChats` filters the chats, sorts them newest first, picks the other participant and counts unseen messages.
- **Bearer middlewares** (`AuthHeader`, `UserAuth`, `ChatAuth`): both `isAuth` copies, with the token verifier passed in as a parameter.

`Text` models the JavaScript string primitives the code relies on:
- the `\s` / `trim` whitespace class;
- `trim`, `startsWith`, and `split`/`join` on one character;
- decimal `toString`.

`Wrappers` holds the `Option` type used for `null`, `undefined` and absent fields.

Code that mutates state step by step is imperative here:
- `UserController.UserServer`: the store, the outbox and the user table are fields.
- `ChatController.ChatStore`: the chat collection.
- `VerifyOtp.OtpWidget`: the component's state.
- `ChatPage.MoveChatToTop`: the copy, `findIndex`, `splice` and `unshift` steps.
- `AuthHeader.Request`: `req.user` and the `next()` count.

Each such method is proved equal to a pure step function, or states its whole new state. The properties are proved about those functions.

Some parts of the source are parameters of the model:
- the clock (an integer instant for the store's expiry; an opaque string for client timestamps);
- the `Math.random` draw behind the OTP (any integer in [0, 900000));
- the id the database assigns to a new user or chat;
- the token signer's result;
- the token verifier (throws, returns nothing, or returns a payload);
- the user-service lookup in `getAllChats` (a function that may fail).

## Model

| member | source | states |
|---|---|---|
| `ChatPage.FindChat` | froentend/src/app/chat/page.tsx:92-94 | `findIndex` on the chat id: -1 exactly when no row holds the chat, otherwise the first such row |
| `ChatPage.Relocate` | froentend/src/app/chat/page.tsx:96-113 | `splice` then `unshift`: same length, the moved row first, every other row at its index shifted by one if it stood before the moved one |
| `ChatPage.Bump` | froentend/src/app/chat/page.tsx:97-112 | the moved chat: latest message `{text, sender}`, new `updatedAt`; `unSeenCount` becomes the old `unseenCount` (absent read as 0) plus 1 exactly when counting and the sender is not the logged-in user, otherwise that old value; `unseenCount`, `createdAt`, the ids and the users are unchanged, and no other field differs |
| `ChatPage.BumpTwice` | froentend/src/app/chat/page.tsx:97-112 | bumping the same row again for the same message only renews `updatedAt`, since the count is recomputed from the unchanged `unseenCount` |
| `ChatPage.BumpCorrected` | froentend/src/app/chat/page.tsx:107-110 | the corrected counter update of the Findings row: the count is read from and written to `unseenCount`, old+1 exactly when counted; `unSeenCount` and every other field but the latest message and `updatedAt` are unchanged |
| `ChatPage.MoveToTop` | froentend/src/app/chat/page.tsx:88-116 | no list stays no list; a list without the chat is returned unchanged; otherwise same length, with the updated chat at index 0 |
| `ChatPage.MoveToTopCorrected` | froentend/src/app/chat/page.tsx:107-110 | the same reordering around `BumpCorrected`, for the Findings row |
| `ChatPage.MoveToTopTwice` | froentend/src/app/chat/page.tsx:88-116 | running the updater a second time for the same message equals one run at the later time |
| `ChatPage.MoveChatToTop` | froentend/src/app/chat/page.tsx:88-116 | the copy / `findIndex` loop / `splice` / `unshift` steps produce exactly `MoveToTop` |
| `ChatPage.MoveToTopKeepsOrder` | froentend/src/app/chat/page.tsx:95-113 | every other chat keeps its relative order |
| `ChatPage.MoveToTopPermutes` | froentend/src/app/chat/page.tsx:91-115 | the result is a permutation of the old list with the moved row replaced by its update |
| `ChatPage.AsWrittenCounterStalls` | froentend/src/app/chat/page.tsx:107-110 | as written, two counted arrivals on a chat with no `unseenCount` leave the counter at 1 |
| `ChatPage.ArrivalsAccumulate` | froentend/src/app/chat/page.tsx:107-110 | corrected, two counted arrivals add 2 to the counter |
| `ChatPage.ResetUnseenCount` | froentend/src/app/chat/page.tsx:119-136 | null stays null; same length and order; matching chats get counter 0 and change in nothing else; other chats are unchanged |
| `ChatPage.ResetUnseenCountIdempotent` | froentend/src/app/chat/page.tsx:119-136 | resetting twice equals resetting once |
| `ChatPage.ResetKeepsPosition` | froentend/src/app/chat/page.tsx:119-136 | a reset does not move the chat, and its counter reads 0 |
| `ChatPage.ResetThenArrival` | froentend/src/app/chat/page.tsx:107-129 | corrected, one counted arrival after a reset shows exactly 1 |
| `ChatPage.AppendMessage` | froentend/src/app/chat/page.tsx:195-206 | null is read as empty; a message whose id is present leaves the list as it is; otherwise the message is appended at the end; the old list is a prefix; unique ids are preserved |
| `ChatPage.AppendMessageIdempotent` | froentend/src/app/chat/page.tsx:249-256 | applying the updater twice with the same message equals applying it once |
| `ChatPage.OnMessageSeen` | froentend/src/app/chat/page.tsx:263-286 | only for the selected chat; the messages marked seen with a timestamp are exactly the user's own whose id is listed (all of them if no list is given); every other message is unchanged |
| `ChatPage.SeenIsMonotone` | froentend/src/app/chat/page.tsx:268-283 | a receipt never un-sees a message |
| `ChatPage.PrepareSend` | froentend/src/app/chat/page.tsx:158-183 | nothing is sent iff the draft is blank with no image, or no chat is selected; the post carries the chat, the untrimmed draft when it is not blank, and the image flag |
| `ChatPage.OnUserTyping` | froentend/src/app/chat/page.tsx:289-292 | the flag becomes true iff it was true or the event is for the selected chat from another user |
| `ChatPage.OnStopTyping` | froentend/src/app/chat/page.tsx:294-298 | the flag becomes false iff the event is for the selected chat from another user; otherwise it is unchanged |
| `ChatPage.TypingThenStop` | froentend/src/app/chat/page.tsx:289-298 | a stop from the peer in view lowers the flag after any start; events from others leave it alone |
| `ChatPage.OnNewMessage` | froentend/src/app/chat/page.tsx:245-261 | one `newMessage` handler: for the chat in view the message is appended with dedup, for other chats the messages are unchanged; no chat list stays none, a list without the chat is unchanged, otherwise the chat's bumped row (counting only when not in view) comes first and the list is a permutation of the old one with that row replaced; the rest of the client state is untouched |
| `ChatPage.NewMessageCounter` | froentend/src/app/chat/page.tsx:248-260 | an arrival moves its chat to the top; its `unSeenCount` is the old `unseenCount` plus 1 iff the chat is not in view and someone else sent it, and `unseenCount` stays as it was |
| `ChatPage.OnNewMessageTwice` | froentend/src/app/chat/page.tsx:245-261 | a second run of the handler for the same message equals one run at the later time |
| `ChatPage.RunNewMessage` | froentend/src/app/chat/page.tsx:245-261 | handler runs one after another: none leave the state unchanged; k ≥ 1 equal one run at the last clock reading |
| `ChatPage.DeliverNewMessage` | froentend/src/app/chat/page.tsx:244-261 | a `newMessage` event runs each of the `listeners` registered handlers once: with none registered the state is unchanged (the message is dropped); with k ≥ 1 the result is one run at the last clock reading |
| `ChatPage.OnMessageSeenTwice` | froentend/src/app/chat/page.tsx:263-286 | a second run of the receipt handler equals one run at the later time |
| `ChatPage.RunSeen` | froentend/src/app/chat/page.tsx:263-286 | receipt handler runs one after another: none leave the state unchanged; k ≥ 1 equal one run at the last reading |
| `ChatPage.DeliverSeen` | froentend/src/app/chat/page.tsx:244-286 | a `messageSeen` event runs each of the `listeners` registered handlers once: none leaves the state unchanged; k ≥ 1 equal one run at the last reading |
| `ChatPage.OnTypingSignal` | froentend/src/app/chat/page.tsx:244-292 | a `userTyping` event registers one more `newMessage`/`messageSeen` handler pair, raises the flag iff it was raised or the event is from the peer in view, and changes nothing else |
| `ChatPage.ApplySignals` | froentend/src/app/chat/page.tsx:244-292 | k typing events register k more handler pairs and leave chats, messages and selection alone |
| `ChatPage.Rerun` | froentend/src/app/chat/page.tsx:243-320 | cleaning up and re-running both effects: no handler is left, a previously chosen chat's messages are emptied, and a chosen chat gets its typing flag dropped and its counter zeroed; otherwise flag and chats are unchanged |
| `ChatPage.OnSelect` | froentend/src/app/chat/page.tsx:300-320 | setting the same selection (`null`, `undefined` and chat ids kept apart) changes nothing; a new one, including `undefined` after `null` as the first `createChat` sets (page.tsx:150), removes every registered handler and empties the messages when a chat was chosen before; a new chat id also clears the typing flag and zeroes that chat's counter, while `null`, `undefined` or "" leave both alone |
| `ChatPage.OnSocketChange` | froentend/src/app/chat/page.tsx:306-320 | a new socket re-runs both effects with the selection kept: no handler is left, and a chosen chat's messages are emptied, its typing flag dropped and its counter zeroed |
| `ChatPage.OnUserChange` | froentend/src/app/chat/page.tsx:300-306 | a new logged-in user id re-runs only the listener effect: handlers removed, the id replaced, nothing else changes |
| `ChatPage.ArrivalAfterSelectIgnored` | froentend/src/app/chat/page.tsx:244-320 | after a change of selection, with the run count equal to the (zero) registered handlers, an arriving message changes nothing |
| `ChatPage.TypingSignalsDoNotMultiply` | froentend/src/app/chat/page.tsx:244-263 | however many typing events registered handlers, an arrival acts as one run of the handler |
| `ChatPage.OnSendSuccess` | froentend/src/app/chat/page.tsx:195-212 | after a send: the returned message is appended with dedup and the draft is cleared; the chats are `moveChatToTop` uncounted with the text or the image preview: no list stays none, a list without the chat is unchanged, otherwise the chat's row comes first with `unSeenCount` the old `unseenCount`, `unseenCount` unchanged, the new latest message and `updatedAt` and no other field changed, every other row keeps its relative order, and the list is a permutation with that row replaced; selection, user, typing flag and handlers are unchanged |
| `Text.TrimEmptyIffBlank` | froentend/src/app/chat/page.tsx:160 | `trim()` gives the empty string exactly for all-whitespace text |
| `Text.Split` | backend/user/src/controller/user.ts:59 | `split` on one character: separator-free pieces that join back to the input; the first piece is the text before the first separator |
| `Text.SplitOfJoin` | backend/user/src/middleware/isAuth.ts:15 | splitting undoes joining separator-free parts |
| `Text.DecimalValueOfNatToString` | backend/user/src/controller/user.ts:22 | `toString` of a natural number reads back as that number |
| `VerifyOtp.EmptyOtp` | froentend/src/components/verifyOtp.tsx:16 | the initial row has six empty cells and satisfies the cell invariant |
| `VerifyOtp.JoinedLength` | froentend/src/components/verifyOtp.tsx:66-67 | joining cells of at most one character has length at most the cell count, and equal to it iff no cell is empty |
| `VerifyOtp.CompleteIffAllFilled` | froentend/src/components/verifyOtp.tsx:66-69 | under the cell invariant, the joined OTP has length 6 iff all six cells are filled, and it is all digits |
| `VerifyOtp.KeepDigits` | froentend/src/components/verifyOtp.tsx:56 | `replace(/\D/g, '')` yields only digits, is no longer than its input, and holds a character iff the input holds it and it is a digit |
| `VerifyOtp.KeepDigitsOfNonDigit` | froentend/src/components/verifyOtp.tsx:56 | a non-digit character is removed |
| `VerifyOtp.KeepDigitsConcat` | froentend/src/components/verifyOtp.tsx:56 | the filter distributes over concatenation, so order is kept |
| `VerifyOtp.KeepDigitsOfDigits` | froentend/src/components/verifyOtp.tsx:56 | a digit string passes the filter unchanged |
| `VerifyOtp.PastedDigits` | froentend/src/components/verifyOtp.tsx:56 | a prefix of the digits, at most 6 long, and exactly 6 iff the text holds at least 6 digits |
| `VerifyOtp.CellsJoinBack` | froentend/src/components/verifyOtp.tsx:56-58 | the cells of a pasted code are valid cells that join back to the code |
| `VerifyOtp.PadStart2` | froentend/src/components/verifyOtp.tsx:145 | `padStart(2, '0')`: strings of 2 or more characters are unchanged; shorter ones get leading zeros up to length 2 |
| `VerifyOtp.PaddedSeconds` | froentend/src/components/verifyOtp.tsx:144-145 | a seconds value below 60 renders as exactly two digits denoting it |
| `VerifyOtp.FormatTimeMeaning` | froentend/src/components/verifyOtp.tsx:142-146 | for seconds ≥ 0: `m:ss`, with m = seconds div 60 and the two-digit ss = seconds mod 60 |
| `VerifyOtp.FormatTimeDenotesSeconds` | froentend/src/components/verifyOtp.tsx:142-146 | m·60 + ss equals seconds |
| `VerifyOtp.FormatTimeExamples` | froentend/src/components/verifyOtp.tsx:142-146 | 60 gives "1:00", 59 gives "0:59", 125 gives "2:05" |
| `VerifyOtp.OtpWidget.constructor` | froentend/src/components/verifyOtp.tsx:16-21 | six empty cells, no error, timer 60, not loading, not signed in and no user |
| `VerifyOtp.OtpWidget.InputChange` | froentend/src/components/verifyOtp.tsx:33-40 | a value with a non-digit, or longer than one character, changes nothing; otherwise only cell `index` changes and the error clears; the cell invariant is kept |
| `VerifyOtp.OtpWidget.Paste` | froentend/src/components/verifyOtp.tsx:53-61 | six extracted digits replace the row; fewer leave it unchanged; the invariant is kept |
| `VerifyOtp.OtpWidget.Submit` | froentend/src/components/verifyOtp.tsx:63-72 | the request is sent iff all six cells are filled, carrying the six joined digits; otherwise the error is "Please enter all 6 digits" |
| `VerifyOtp.OtpWidget.SubmitFinished` | froentend/src/components/verifyOtp.tsx:89-105 | loading stops; a refusal shows the server message or the fallback; a network failure shows its own message |
| `VerifyOtp.OtpWidget.Resend` | froentend/src/components/verifyOtp.tsx:108-139 | the error clears; success resets the timer to 60 and the row to six empty cells, stores the reply's user and sets the signed-in flag; failure changes nothing else |
| `VerifyOtp.OtpWidget.Tick` | froentend/src/components/verifyOtp.tsx:24-31 | the countdown drops by one while positive and stops at 0 |
| `LoginPage.ValidateEmailMatchesPattern` | froentend/src/app/login/page.tsx:16-17 | the scan (no whitespace, one '@' with text before it, a '.' in the domain that is neither its first nor last character) holds iff the regular expression matches |
| `LoginPage.AcceptedExample` | froentend/src/app/login/page.tsx:16-17 | "a@b.co" is valid |
| `LoginPage.DomainEndingInDotExample` | froentend/src/app/login/page.tsx:16-17 | "a@b." is invalid |
| `LoginPage.SecondAtExample` | froentend/src/app/login/page.tsx:16-17 | "a@b@c.d" is invalid |
| `LoginPage.EmailError` | froentend/src/app/login/page.tsx:26-31 | "Email is required" for empty, "Email is invalid" for a non-matching value, "" exactly for a valid one |
| `LoginPage.HandleChange` | froentend/src/app/login/page.tsx:20-35 | only the named field changes; only an email edit recomputes the email error; other errors are unchanged |
| `LoginPage.HandleSubmit` | froentend/src/app/login/page.tsx:37-56 | required is checked before invalid, then a standing error blocks; the request is sent iff the email is valid and no error stands |
| `LoginPage.InitialFormAgrees` | froentend/src/app/login/page.tsx:11-14 | the initial form's error agrees with its value |
| `LoginPage.HandleChangeKeepsAgreement` | froentend/src/app/login/page.tsx:24-34 | edits keep the error in agreement with the value |
| `LoginPage.HandleSubmitKeepsAgreement` | froentend/src/app/login/page.tsx:40-48 | submits keep the error in agreement with the value |
| `LoginPage.StandingErrorGuardIsRedundant` | froentend/src/app/login/page.tsx:40-50 | in agreeing states a request is sent exactly for a valid email |
| `UserController.KeysDiffer` | backend/user/src/controller/user.ts:17-24 | an email's OTP key and rate-limit key differ |
| `UserController.OtpIsSixDigits` | backend/user/src/controller/user.ts:22 | every generated OTP has six digits and denotes a number in [100000, 999999] |
| `UserController.FindBy` | backend/user/src/controller/user.ts:57 | `findOne({ email })` and `findById`: the first user whose email (or id) is the value, or none exists |
| `UserController.FindOrCreateMeaning` | backend/user/src/controller/user.ts:56-61 | an existing user leaves the table unchanged; otherwise exactly one user is appended, named by the email's part before its first '@'; email and id uniqueness are kept, so exactly one user has the email |
| `UserController.LoginStep` | backend/user/src/controller/user.ts:8-39 | 400 for a missing email, then 500 for a closed store, then 429 while the rate-limit key is live, with the state unchanged; 200 exactly when all three guards pass |
| `UserController.LoginIssuesOtp` | backend/user/src/controller/user.ts:22-34 | after a 200 the OTP reads back for exactly 300 s and the rate-limit key for exactly 60 s; no other key changes; one mail to the email goes to `send-otp` |
| `UserController.SecondLoginWithinMinuteRefused` | backend/user/src/controller/user.ts:17-27 | a second login for the same email within 60 s gets 429 and changes nothing |
| `UserController.LoginAgainAfterMinute` | backend/user/src/controller/user.ts:17-27 | after 60 s the same email may log in again |
| `UserController.VerifyStep` | backend/user/src/controller/user.ts:41-72 | 400 for a missing field, then 500 for a closed store, then 400 "Invalid or expired Otp" for an absent or different OTP, with the state unchanged; with a matching stored OTP the key is deleted and the user found or created, and the reply is 200 iff a token was signed, otherwise 500 "Failed to create token" with the OTP already spent |
| `UserController.VerifyAccepts` | backend/user/src/controller/user.ts:55-67 | a 200 deletes the OTP key, finds or creates the user, and returns that user and the token in the body and as a bearer header |
| `UserController.ReplayRefused` | backend/user/src/controller/user.ts:51-55 | after a successful verify, any further attempt for that email is refused |
| `UserController.LoginThenVerify` | backend/user/src/controller/user.ts:25-53 | the mailed OTP is accepted within 300 s |
| `UserController.OtpExpires` | backend/user/src/controller/user.ts:25-53 | after 300 s the mailed OTP is refused |
| `UserController.MyProfile` | backend/user/src/controller/user.ts:74-87 | 400 without an id, 404 for an unknown id, otherwise 200 with that user |
| `UserController.UpdateStep` | backend/user/src/controller/user.ts:89-105 | a missing id (400) is checked before a missing name (400); refusals change nothing |
| `UserController.UpdateRenamesOne` | backend/user/src/controller/user.ts:98-101 | 404 for an unknown id; otherwise only that user's name changes, and the reply carries the updated user |
| `UserController.GetUsers` | backend/user/src/controller/user.ts:107-125 | with an id, 200 with that user iff it exists, otherwise 404; without one, all users |
| `UserController.UserServer.LoginUser` | backend/user/src/controller/user.ts:8-39 | the store steps give exactly `LoginStep`'s reply and new state |
| `UserController.UserServer.VerifyUser` | backend/user/src/controller/user.ts:41-72 | the store and table steps give exactly `VerifyStep`'s reply and new state |
| `UserController.UserServer.UpdateUser` | backend/user/src/controller/user.ts:89-105 | the steps give exactly `UpdateStep`'s reply and new state |
| `ChatController.FindPair` | backend/chat/src/controllers/chat.ts:13-15 | the first chat with both ids and exactly two users, or none exists |
| `ChatController.CreateStep` | backend/chat/src/controllers/chat.ts:7-25 | 400 and no change without `otherUserId`; 201 iff no matching chat exists, adding exactly one chat `[userId, otherUserId]`; otherwise 200 "Chat already exists" with no chat and the collection unchanged |
| `ChatController.CreateTwiceCreatesOnce` | backend/chat/src/controllers/chat.ts:13-21 | a repeated request answers 200 and creates no duplicate |
| `ChatController.PairMatchSymmetric` | backend/chat/src/controllers/chat.ts:14 | the query does not depend on the order of the two ids |
| `ChatController.CreateKeepsOneChatPerPair` | backend/chat/src/controllers/chat.ts:13-21 | for distinct users, at most one chat per pair is preserved |
| `ChatController.ChatStore.CreateNewChat` | backend/chat/src/controllers/chat.ts:7-25 | find-then-insert on the collection gives exactly `CreateStep` |
| `ChatController.ChatsOf` | backend/chat/src/controllers/chat.ts:34 | exactly the chats that include the user, each as often as in the collection |
| `ChatController.SortNewestFirstMeaning` | backend/chat/src/controllers/chat.ts:34 | the sort orders by `updatedAt` descending and is a permutation |
| `ChatController.FirstOther` | backend/chat/src/controllers/chat.ts:38 | the first participant other than the user; none only when every entry is the user |
| `ChatController.CountUnseenMeaning` | backend/chat/src/controllers/chat.ts:40-44 | the count is the number of messages in the chat that are unseen and sent by someone else |
| `ChatController.GetAllChats` | backend/chat/src/controllers/chat.ts:27-32 | 400 "User not authenticated" exactly when the user id is missing |
| `ChatController.GetAllChatsMeaning` | backend/chat/src/controllers/chat.ts:27-86 | exactly the user's chats, newest first, one entry each; each entry has the first other participant (or the "Unknown User" fallback when the lookup fails), the last message or `{}`, and the unseen count |
| `ChatController.ListedDocs` | backend/chat/src/controllers/chat.ts:34-37 | the listed chats are the sorted filter, in order |
| `ChatController.ListedEntries` | backend/chat/src/controllers/chat.ts:38-78 | each entry is built from its chat as above |
| `AuthHeader.ParseHeader` | backend/user/src/middleware/isAuth.ts:11-17 | a missing header, or one without "Bearer ", fails; otherwise the token is `split(" ")[1]`, non-empty and space-free, or empty |
| `AuthHeader.TokenIsFirstWordAfterPrefix` | backend/user/src/middleware/isAuth.ts:15 | the token of "Bearer " + rest is rest up to its first space |
| `AuthHeader.TokenExample` | backend/user/src/middleware/isAuth.ts:15 | "Bearer abc" gives token "abc" |
| `AuthHeader.BareBearerExample` | backend/user/src/middleware/isAuth.ts:15-17 | "Bearer " gives an empty token |
| `AuthHeader.DoubleSpaceExample` | backend/user/src/middleware/isAuth.ts:15-17 | "Bearer  abc" gives an empty token |
| `AuthHeader.NoBearerExamples` | backend/user/src/middleware/isAuth.ts:12 | a lower-case prefix, a prefix without its space, and a missing header all fail |
| `AuthHeader.Apply` | backend/user/src/middleware/isAuth.ts:23-29 | allow sets `req.user` and calls `next` once with no response; deny sends one 401 and does not call `next` |
| `UserAuth.Authenticate` | backend/user/src/middleware/isAuth.ts:9-31 | every refusal is 401 "Unauthorized"; allowed iff there is a token and the verifier returns a payload; `req.user` is `{userId: id, email}` |
| `UserAuth.IsAuth` | backend/user/src/middleware/isAuth.ts:9-31 | the middleware carries out `Authenticate` on the request |
| `ChatAuth.Authenticate` | backend/chat/src/millerwares/isAuth.ts:14-36 | "Please login - No Auth Header" exactly for a missing bearer header; other refusals are "Unauthorized", including a verifier that yields nothing |
| `ChatAuth.SameAsUserService` | backend/chat/src/millerwares/isAuth.ts:14-36 | both middlewares admit the same requests with the same user; they differ only in the missing-header message |
| `ChatAuth.IsAuth` | backend/chat/src/millerwares/isAuth.ts:14-36 | the middleware carries out `Authenticate` on the request |

## Findings

| source | as written | input that shows it | evidently intended | confidence | as-written member | corrected member |
|---|---|---|---|---|---|---|
| froentend/src/app/chat/page.tsx:107-110 | `moveChatToTop` reads `unseenCount` but writes the new count to `unSeenCount` | a chat row without `unseenCount` (every row the chat service sends) and two messages from the peer while another chat is open: the counter ends at 1, not 2 | read and write the same counter, so each counted arrival adds one and `resetUnseenCount` clears the counter that arrivals increment; the corrected members describe one handler run per arrival, so the correction also needs the handlers registered once rather than once per typing event (`ChatPage.DeliverNewMessage` runs each registered handler) | medium, not executed | `ChatPage.AsWrittenCounterStalls` (on `ChatPage.MoveToTop`) | `ChatPage.ArrivalsAccumulate`, `ChatPage.ResetThenArrival` (on `ChatPage.MoveToTopCorrected`) |

## Left out

- The realtime presence, room and delivery coordinator is not part of this model. This covers the socket server, join/leave, `newMessage`/`messagesSeen` fan-out and the typing relay. No code for it is among the modelled files. Only the client's `emit`/`on` calls appear, and their handlers are modelled as state updaters.
- The send-message and fetch-history endpoints are not part of this model. `backend/chat/src/route/chat.ts` registers only `createNewChat` and the chat listing.
- Left out as I/O:
  - network requests (axios, fetch);
  - cookies;
  - the Redis, RabbitMQ and Mongo connections;
  - nodemailer;
  - the Express setup.
  
  The store, the queue (an outbox sequence) and the user table are plain state. A request's outcome is a parameter.
- The catch-all 500 and 401 answers for an exception from the store, the queue, the database or the user lookup are not modelled. The exception is the chat `isAuth`, where a verifier that yields nothing makes reading `decoded.id` throw; that case is modelled.
- JWT signing and verification are left out. The signer's result and the verifier's verdict are parameters.
- `Math.random` becomes a draw parameter in range. `new Date()` becomes a timestamp parameter.
- Left out: React rendering, toasts, focus movement, the 300 ms loader delay, and the 2 s stop-typing timer. The countdown's `setInterval` is left out too; only its per-tick state change (`Tick`) is modelled.
- `handleKeyDown` in the OTP widget only moves focus, so it is not modelled.
- `ChatPage.PrepareSend`: the image is a flag; its upload is not modelled.
- `ChatPage.OnSendSuccess`: the sender id comes from the reply and is a parameter.
- `ChatPage.DeliverNewMessage`, `ChatPage.DeliverSeen`: the handlers registered by one `userTyping` event all see the selection of the effect run that registered them; the model takes that to be the current selection, which holds because every selection change removes them. Socket event order and React's batching of queued updaters are not modelled: one event's handlers run in registration order, one after another.
- `ChatController.GetAllChatsMeaning`: the sort is modelled as stable, which Mongo does not promise for equal `updatedAt`. Only "newest first and a permutation" is stated.
- `ChatController.CreateStep`: `userId` from `req.user` is taken to be a string. An absent one, which the query would treat as `undefined`, is not modelled.
- `UserController.VerifyStep`: the entered OTP is compared as a string. A JSON number, which `!==` never equals, is not modelled.
- Character positions count Unicode scalar values where JavaScript counts UTF-16 code units. The character classes the modelled code tests (digits, `\s` whitespace, '@', '.', ' ') all lie in the Basic Multilingual Plane, but lengths of arbitrary text containing characters outside it differ from JavaScript's.
