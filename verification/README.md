# Telegram login bridge: pending-auth registry and request decisions

This project models the core of a small HTTP service that drives a Telegram
login on behalf of a caller and then reads and sends messages with the saved
session. The service has two files, `telegram.js` (the service) and
`index.js` (the HTTP routes). The Dafny model covers:

- **The pending-auth registry** (`registry.dfy`, module `Registry`). This is
  the map from an auth id to an in-flight login attempt. The class
  `PendingAuths` holds it as a `map<string, PendingAuth>` field and updates
  it in place.
  - `CleanupExpiredAuths` is the lazy sweep. It deletes attempts older than
    fifteen minutes, rejects both of their deferreds with `AUTH_EXPIRED` and
    disconnects their clients.
  - `SendCode` sweeps first, then registers one attempt.
  - `VerifyCode` and `Verify2FA` settle a deferred, then keep or delete the
    attempt depending on how the login ends. `Verify2FA` also remaps
    password errors to `PASSWORD_INVALID`.
  - `Logout` is the best-effort logout.

  The login coroutine that the Telegram client runs is not modelled as a
  task. What it does after a request hands it a value is an input:
  - for a code, a `LoginOutcome`: it finished, or it asked for a password;
  - for a password, a `LoginResult`: a session, or an error message.
- **The deferreds** (`deferred.dfy`, module `Deferred`). Each is a write-once
  cell: the first resolve or reject wins and every later one is ignored.
- **The message readers' selection logic** (`messages.dfy`, module
  `Messages`). What the Telegram client returns is an input: the listed
  dialogs, each with its message history (newest first) and whether fetching
  from it fails.
  - The unread reader takes the first fifteen dialogs with unread messages
    and fetches `min(unreadCount || 5, 20)` messages from each. It also
    counts all unread dialogs.
  - The recent reader computes a cutoff in seconds and skips broadcast
    channels. It keeps the messages dated at or after the cutoff and sorts
    them newest first.
- **The request decisions of `index.js`** (`http.dfy`, module `Http`):
  - the shared-secret check;
  - each route's falsy-field checks before the service is called;
  - the arguments each route passes, including `days || 7`;
  - the error-message-to-status mapping of the catch blocks.
- `scenarios.dfy` walks through whole handshakes using only the registry's contracts:
  - a login without a second factor;
  - a wrong second-factor password;
  - a repeated code;
  - expiry by a later sweep.

`wrappers.dfy` (Option, Result), `js.dfy` (JSON values and JavaScript
truthiness) and `text.dfy` (`includes` and ASCII `toUpperCase`) hold the
helpers these modules share.

Behaviour of the code worth noting:
- `verify2FA` does not check that the attempt was asked for a password. Any
  registered attempt is accepted.
- `verifyCode` deletes the attempt on every login error, including an
  invalid code. A retry with a corrected code therefore gets `AUTH_EXPIRED`.
- Expiry is lazy. Only `sendCode` sweeps, so an old attempt stays usable
  until someone starts another login (`Scenarios.ExpiryByLaterSendCode`).
- `/auth/verify-2fa` answers `AUTH_EXPIRED` with 500 and the raw message,
  not with 400 (`Http.ExpiredAttemptReplies`).
- `/auth/logout` requires no field.
- The sweep rejects the password promise of every attempt it retires. The
  only handler on that promise is the `await` in the client's password
  callback (telegram.js:63), which runs only once the password has been
  requested. For an attempt still waiting for its code (the usual abandoned
  login) that rejection therefore has no handler, and becomes an unhandled
  rejection (`Registry.RetiredPasswordRejected`). Neither file installs an
  `unhandledRejection` listener. Recent Node versions turn such a rejection
  into an uncaught exception by default, which ends the process and loses
  the whole registry.
- Auth ids come from the clock and `Math.random`. Nothing makes them unique,
  and a colliding id overwrites the earlier attempt.

## Model

| member | source | states |
|---|---|---|
| `Deferred.Resolve` | telegram.js:9-17 | resolving a pending deferred fulfils it with the value; resolving a settled one leaves it as it was |
| `Deferred.Reject` | telegram.js:9-17 | rejecting a pending deferred rejects it with the reason; rejecting a settled one leaves it as it was |
| `Deferred.SettledIsFinal` | telegram.js:34-35 | once a deferred has settled, no sequence of later resolve/reject calls changes it |
| `Deferred.FirstSettleWins` | telegram.js:106 | from pending, any non-empty sequence of settle calls ends in exactly the first call's outcome |
| `Registry.Retire` | telegram.js:33-39 | an entry the sweep discards has both deferreds settled (rejected with AUTH_EXPIRED unless already settled) and its client disconnected, all else unchanged |
| `Registry.SweepPartitions` | telegram.js:29-43 | every entry is either kept or retired by a sweep, never both, and the two counts add up to the registry's size |
| `Registry.SweepBoundary` | telegram.js:32 | the age test is strict: an entry exactly 900000 ms old survives, one 1 ms older is discarded, and one with no createdAt has age `now` |
| `Registry.SweepIdempotent` | telegram.js:29-43 | a second sweep at the same time keeps everything and retires nothing |
| `Registry.SweepMonotone` | telegram.js:32 | a later sweep keeps a subset of what an earlier sweep keeps |
| `Registry.NewAttempt` | telegram.js:89-98 | a new attempt is created at the given time, connected, with all three deferreds pending |
| `Registry.RemapPasswordError` | telegram.js:133-137 | a failed login's message becomes PASSWORD_INVALID exactly when its upper-cased form contains PASSWORD; any other message is rethrown unchanged |
| `Registry.PendingAuths.constructor` | telegram.js:7 | the registry starts empty and valid |
| `Registry.RetiredPasswordRejected` | telegram.js:33-36 | over registered attempts, every retired attempt's password promise is rejected with AUTH_EXPIRED, and that rejection has no handler exactly when the attempt was still waiting for its code, whose own promise is then still pending |
| `Registry.PendingAuths.CleanupExpiredAuths` | telegram.js:29-43 | the registry becomes exactly the unexpired entries, unchanged; the expired ones are returned retired, each with its password promise rejected with AUTH_EXPIRED and unhandled exactly when no password was requested; every registered attempt stays awaiting-code or awaiting-password with a connected client |
| `Registry.PendingAuths.SendCode` | telegram.js:45-101 | sweeps at `now`; if connecting fails, throws and adds nothing; otherwise adds exactly one fresh entry under `authId` and answers success, code length 5, code type SMS |
| `Registry.PendingAuths.VerifyCode` | telegram.js:103-121 | unknown id: AUTH_EXPIRED, registry unchanged; password requested: entry kept with its code deferred resolved (first code wins), answer needs2FA with the same id; login finished: entry deleted, session returned or error rethrown |
| `Registry.PendingAuths.Verify2FA` | telegram.js:123-139 | unknown id: AUTH_EXPIRED, registry unchanged; otherwise the entry is deleted whatever the result, and a failure mentioning PASSWORD in any case becomes PASSWORD_INVALID |
| `Registry.Logout` | telegram.js:141-151 | logout always answers success; a falsy session string returns early without a client; otherwise a client is opened, and the remote logout goes through exactly when it raises no error, an error being swallowed |
| `Messages.GetMessages` | telegram.js:183-185 | the library call either throws, or returns a prefix of the dialog's newest-first history no longer than a positive limit |
| `Messages.UnreadDialogs` | telegram.js:179 | the filtered dialogs are exactly those with a positive unread count, no more than the input |
| `Messages.UnreadDialogsDistributes` | telegram.js:179-181 | the filter keeps order and multiplicity: filtering a concatenation concatenates the filtered parts, so the first 15 kept are the first 15 unread dialogs in listing order |
| `Messages.UnreadDialogsSingle` | telegram.js:179 | a single dialog is kept exactly when its unread count is positive |
| `Messages.FetchLimit` | telegram.js:184 | the fetch limit is at most 20, at most the unread count when there is one, and 5 when there is none |
| `Messages.EntryFor` | telegram.js:182-202 | one dialog's turn of the loop pushes at most one entry, exactly when its fetch succeeds, and that entry carries the dialog's id and a prefix of its history |
| `Messages.UnreadEntriesDistributes` | telegram.js:181-203 | the entries of a concatenation of dialogs are those of its parts, in order, so each dialog contributes its own entry at its own place |
| `Messages.UnreadEntriesBounded` | telegram.js:181-203 | over unread dialogs, no more entries than dialogs, each holding a prefix of an input dialog's messages, no more than that dialog's unread count nor 20 |
| `Messages.GetUnreadMessages` | telegram.js:175-210 | the entries are those of the first 15 unread dialogs whose fetch succeeds, at most 15, each with at most 20 messages from an unread dialog; totalUnreadDialogs counts every unread dialog |
| `Messages.Cutoff` | telegram.js:215 | the cutoff plus `days` days, in seconds, is the floor of `now` in milliseconds divided by 1000 |
| `Messages.KeepRecent` | telegram.js:222-237 | every kept message is the projection of one of the given messages of that dialog whose date is non-zero and at or after the cutoff |
| `Messages.RecentCandidates` | telegram.js:218-241 | every selected message has a non-zero date at or after the cutoff and is the projection of an in-window message among the first 50 of an input dialog that is not a broadcast channel and whose fetch succeeds |
| `Messages.KeepRecentComplete` | telegram.js:222-223 | every fetched message of a dialog with a date in the window is kept |
| `Messages.RecentCandidatesComplete` | telegram.js:218-223 | a message among the first 50 of a non-broadcast dialog whose fetch succeeds, with a date in the window, is selected |
| `Messages.SortNewestFirst` | telegram.js:242 | the sorted result is newest first and a permutation of the input |
| `Messages.SortNewestFirstStable` | telegram.js:242 | the sort is stable: for every date, the messages of that date keep the order in which they were pushed |
| `Messages.KeepRecentLoop` | telegram.js:222-237 | the inner loop over one dialog's fetched messages pushes exactly `KeepRecent`: the in-window messages, projected, in order |
| `Messages.CollectRecent` | telegram.js:218-241 | the loop over the dialogs collects exactly `RecentCandidates`: the selection in visiting order |
| `Messages.GetRecentMessages` | telegram.js:212-249 | the messages are a newest-first permutation of the selection, each dated at or after the cutoff and taken from the first 50 fetched messages of a dialog that is not a broadcast channel; for every date, the messages of that date keep the order in which they were pushed; totalCount is their number |
| `Js.Or` | index.js:138 | `v \|\| d` is `v` when `v` is truthy and `d` otherwise; with a truthy default the result is truthy |
| `Http.Authenticate` | index.js:13-19 | the request passes exactly when a secret is configured and the x-auth-secret header equals it; otherwise the answer is 401 Unauthorized |
| `Http.Handle` | index.js:13-19 | a request is answered 401 Unauthorized when the configured secret is empty or the header differs from it, and only a request with the right secret reaches its route |
| `Http.FieldMissingIff` | index.js:30-151 | each handler's written-out falsy test holds exactly when some field in the route's table of required fields is falsy |
| `Http.Dispatch` | index.js:27-160 | a route answers 400 with its own message exactly when one of its required fields is falsy, and otherwise calls its own service; logout requires nothing; the recent reader gets `days`, or 7 when `days` is falsy |
| `Http.DispatchPassesFields` | index.js:27-160 | a route that calls the service passes its body fields unchanged, in order; only the recent reader adds the computed `days \|\| 7` |
| `Http.LogoutEndToEnd` | index.js:87-96 | an authenticated logout reaches the service with the body's session string, and the service's reply is success and the same with or without a remote failure, so the route's 500 branch is not reached from the service |
| `Http.VerifyCodeErrorReply` | index.js:52-64 | 400 exactly when the message contains PHONE_CODE_INVALID, PHONE_CODE_EXPIRED or AUTH_EXPIRED, with the text of the first of them in that order (code invalid, code expired, session expired); otherwise 500 with the raw message |
| `Http.Verify2FAErrorReply` | index.js:77-83 | 400 "Senha incorreta" exactly when the message contains PASSWORD (case-sensitive); otherwise 500 with the raw message |
| `Http.ErrorReply` | index.js:27-160 | every route other than the two code/password routes answers a service error with 500 and the raw message |
| `Http.ExpiredAttemptReplies` | index.js:54-82 | AUTH_EXPIRED becomes 400 "Sessão expirada" on /auth/verify-code but 500 AUTH_EXPIRED on /auth/verify-2fa |
| `Http.WrongPasswordEndToEnd` | index.js:79-82 | after the service's remap, /auth/verify-2fa answers 400 exactly when the login error mentions PASSWORD in any letter case |
| `Text.ContainsIffOccurs` | index.js:54 | the model of `includes` holds exactly when the word occurs at some position of the string |
| `Text.Upper` | telegram.js:134 | upper-casing keeps the length and maps each character on its own, lower-case ASCII letters to upper case |
| `Scenarios.LoginWithoutSecondFactor` | telegram.js:103-125 | after a login without a second factor, the same id gets AUTH_EXPIRED from both verifyCode and verify2FA |
| `Scenarios.WrongSecondFactor` | telegram.js:123-138 | a needs2FA answer keeps the id; a rejected password gives PASSWORD_INVALID (route: 400) and removes the attempt, so a retry gets AUTH_EXPIRED (route: 500) |
| `Scenarios.SecondCodeIsNotDelivered` | telegram.js:106 | a code submitted again while the attempt waits for its password leaves the first code in the deferred |
| `Scenarios.ExpiryByLaterSendCode` | telegram.js:29-46 | a sweep exactly 15 minutes after registration keeps the attempt; one a millisecond later rejects both deferreds, disconnects the client and removes it, so its code gets AUTH_EXPIRED, and its password promise is rejected without a handler |

## Left out

- The Telegram client library (`TelegramClient`, `StringSession`, `connect`, `start`, `getMe`, `session.save`, `getDialogs`, `getMessages`, `logOut`, `disconnect`) is foreign code and network I/O. Its results are inputs: a connect error for `sendCode`, a login outcome for each submission, and the dialogs and message histories for the readers. `Messages.GetMessages` stands for `getMessages`: it returns the newest `limit` messages of a dialog, or a thrown error.
- The asynchronous coordination (the `Promise.race` in `verifyCode`, the awaits inside the `client.start` callbacks, the `finally` that disconnects the client when the login ends) concerns concurrency. Which side of the race wins is an input to `VerifyCode`. The model does not tie that input to the attempt's state. For example, in the source a second `verifyCode` after the password was requested sees needs2FA at once.
- Auth id generation and both `Date.now()` readings are inputs. `SendCode` takes the sweep time and the registration time separately, because the source reads the clock again after connecting.
- Registry.PendingAuths.CleanupExpiredAuths: `disconnect` always succeeds in the model. In the source the `try/catch` around it catches only a synchronous throw. `disconnect()` returns a promise that the sweep does not await, so a rejection of that promise is an unhandled rejection, not a swallowed failure. Either way the entry is removed. The rejection of the password promise is stated (`Registry.RetiredPasswordRejected`), but the consequence of an unhandled rejection, a process exit under recent Node versions, is outside the model.
- Text.Upper: upper-cases ASCII letters only. JavaScript's `toUpperCase` is full Unicode, so for instance "ß" becomes "SS". `Registry.RemapPasswordError` and `Http.WrongPasswordEndToEnd` inherit this.
- `error?.message || String(error)` in `verify2FA` is read as the message alone. For an error with an empty message, `String(error)` is "Error", which does not mention PASSWORD, so the answer is the same.
- Messages.SortNewestFirst: the in-place sort of the array is modelled on values. Its result is stated, not the array's intermediate states.
- Registry.Logout: whether the client is disconnected afterwards is not tracked. When `logOut` throws, the source skips `disconnect`.
- Messages.GetUnreadMessages and Messages.GetRecentMessages have no failure result. In the source, a failure of `createClient` or `getDialogs` makes the reader disconnect its client and rethrow (telegram.js:176-178, 206-209, 213-216, 245-248). Only the per-dialog fetch failure, which the loop skips, is modelled.
- Messages.GetRecentMessages: the cutoff is returned in seconds, not as the ISO string the source formats, and `days` is an integer.
- Field-by-field projection of library objects is not modelled: ISO date formatting, sender names, `title || name || "Unknown"`, `id?.toString()`. Messages keep their own fields.
- `getDialogs` (a pass-through with projection), `sendMessage` (a dialog lookup by id and a send) and the `/health` route are not modelled beyond the routes' field checks and service calls.
- Express wiring (`cors`, `express.json`, `app.listen`) and `console` logging are glue. JavaScript numbers are integers here: NaN and fractions are not modelled.
