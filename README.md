# chat-pusher client core in Dafny

This project models the client-side core of chat-pusher, a Next.js chat application. It covers:

- the message list of a conversation: the initial fetch, and the merge of each real-time message into the list or into its parent thread;
- the thread expand/collapse set;
- the typing-indicator emitter (one inactivity timer per conversation) and the typing-indicator tracker (3-second expiries);
- the route guard that sends visitors between the login page and `/threads`;
- the chat-list helpers: normalising the server payload, choosing between conversations and search results, and reading the active thread id from the URL;
- the message composer;
- the three-step password-reset wizard and its form validation.

Pure code (the merge, the toggle, the middleware, the normaliser, the validators) becomes functions over datatypes, with lemmas about them. React state that event handlers update step by step becomes classes:

- `Chat.ChatView` holds the state of `components/Chat.tsx`.
- `TypingEmitter.Emitter` and `TypingTracker.Tracker` hold the state of `hooks/useTyping.ts`.
- `MessageInput.Composer` holds the state of `components/MessageInput.tsx`.
- `ResetWizard.ResetPage` holds the state of `components/ResetPassword.tsx`.

The methods of `TypingEmitter.Emitter` and `TypingTracker.Tracker` are proved against pure step functions: each `ensures` states `State() == Step(old(State()), …)`, and the lemmas prove the promised properties about those step functions. The methods of `Chat.ChatView` state their new fields through the same step functions (`MessageStore.ApplyIncoming`, `ThreadToggle.Toggle`, the emitter and tracker steps), case by case where the handler branches. `MessageInput.Composer` and `ResetWizard.ResetPage` state their new fields directly; `ResetPage` also keeps a ghost history and proves its state equal to the pure `ResetWizard.Run` of it.

Time is an integer millisecond clock. A `setTimeout` becomes a deadline stored in the state. `AdvanceTo(t)` moves the clock forward and runs every callback whose deadline has passed.

JavaScript string semantics are modelled in `JsText`:

- `trim` removes the ECMAScript white-space and line-terminator set from both ends.
- `split(sep)[1]` returns the text between the first and the second occurrence of `sep`.
- `.length` counts UTF-16 code units, so a character outside the BMP counts twice.

A JavaScript value of unknown shape (`any`) is the `ChatList.Json` datatype.

Three behaviours of the code are worth stating explicitly, because a reader might expect otherwise:

- **Sending does not cancel the typing timer.** `sendMessage` (`components/Chat.tsx:203-208`) only posts `isTyping: false`, and the timer stays armed. It fires later and posts a second `false`. `TypingEmitter.SendLeavesTimerArmed` shows this concrete trace.
- **Expiries are not rescheduled.** The code starts a new `setTimeout` for every event and never cancels the earlier ones (`hooks/useTyping.ts:52-58`, `components/Chat.tsx:129-135`). An early expiry can therefore hide a user who is still typing. `TypingTracker.EarlierRemovalStillRuns` shows this.
- **Only one copy filters its own echo.** Only the copy of the typing handler inside `components/Chat.tsx:117` ignores the current user's own events. `hooks/useTyping.ts` has no such filter. `Chat.ChatView.OnTyping` models the first and `TypingTracker.AfterEvent` the second.

`Chat.ThreadScenario`, `Chat.SelfEchoScenario` and `MessageInput.SendTwice` are examples. They are client methods that drive the classes through a short trace and assert its outcome. They model no source function of their own, so they have no row in the table below.

## Model

| member | source | states |
|---|---|---|
| MessageStore.AfterFetch | hooks/useChatMessages.ts:21 | a successful response replaces the list with its data; an unsuccessful one or a failed request leaves the list as it was |
| MessageStore.Attach | hooks/useChatMessages.ts:38-42 | the parent's replies gain the reply at the end; its count grows by one; every other field (id, sender, receiver, text, timestamps, read flag, parentId) is copied unchanged; a consistent count stays consistent |
| MessageStore.AttachTo | hooks/useChatMessages.ts:36-44 | the list keeps its length; every message whose id is the parent id gets the reply attached; every other message is unchanged |
| MessageStore.ApplyIncoming | hooks/useChatMessages.ts:33-48 | a top-level message is appended after the unchanged list; a reply keeps the length and the ids, turns each message with its parent id into that message with the reply attached, and leaves the others untouched; a reply to an unknown parent changes nothing; count consistency is preserved |
| MessageStore.ApplyAllAppendsTopLevel | hooks/useChatMessages.ts:33-48 | after a sequence of events the ids of the list are the old ids followed by the ids of the top-level events, in arrival order: old messages keep their places and replies never enter the list |
| MessageStore.ApplyAllThread | hooks/useChatMessages.ts:36-44 | after a sequence of events a message's replies are its old replies followed by the replies addressed to it, in arrival order, and its count grew by their number |
| MessageStore.ApplyAllKeepsCounts | hooks/useChatMessages.ts:40-41 | if every message starts with a count equal to its number of replies, and so does every arriving top-level event, this still holds after any sequence of events |
| MessageStore.FetchThenReply | hooks/useChatMessages.ts:21-47 | fetching one top-level message and then receiving a reply to it leaves one message carrying that reply and count 1 |
| ThreadToggle.Initial | hooks/useThreadToggle.ts:4-6 | no thread starts expanded |
| ThreadToggle.Toggle | hooks/useThreadToggle.ts:8-14 | the toggled id flips between expanded and collapsed; every other id keeps its state |
| ThreadToggle.ToggleTwice | hooks/useThreadToggle.ts:8-14 | toggling the same id twice restores the set |
| ThreadToggle.ToggleAllParity | hooks/useThreadToggle.ts:8-14 | after a sequence of toggles an id is expanded exactly when it started expanded XOR it was toggled an odd number of times |
| ThreadToggle.ExpandedFromStart | hooks/useThreadToggle.ts:4-14 | starting from the empty set, an id never toggled is collapsed and an id toggled once is expanded |
| TypingEmitter.AtMostOneTimer | hooks/useTyping.ts:31-36 | in every valid state at most one inactivity timer is live |
| TypingEmitter.Keystroke | hooks/useTyping.ts:25-37 | after a keystroke the user is typing; "typing started" is posted only if they were not typing already; the only live timer is the one just armed, with deadline now + 2000 ms |
| TypingEmitter.Advance | hooks/useTyping.ts:33-36 | if the armed timer's deadline has passed, typing stops, the timer is gone and "typing stopped" is posted; otherwise only the clock moves; validity is preserved |
| TypingEmitter.Stop | components/Chat.tsx:203-208 | sending posts "typing stopped" and clears the flag, but keeps the timer table and the ref unchanged |
| TypingEmitter.StartValid | hooks/useTyping.ts:9-10 | the initial state (not typing, no timer, nothing posted) satisfies the hook invariant |
| TypingEmitter.KeystrokeKeepsHookValid | hooks/useTyping.ts:25-37 | a keystroke keeps the invariant: at most one timer, and the posted flags alternate true/false, starting with true |
| TypingEmitter.AdvanceKeepsHookValid | hooks/useTyping.ts:33-36 | letting time pass keeps the same invariant |
| TypingEmitter.SendLeavesTimerArmed | components/Chat.tsx:203-208 | type, send, then wait 2000 ms: the posts are true, false, false, so the send path breaks the alternation |
| TypingEmitter.BurstWhileTyping | hooks/useTyping.ts:26-36 | keystrokes less than 2000 ms apart post nothing and keep the user typing, with a timer 2000 ms after the last one |
| TypingEmitter.BurstPostsOneStartOneStop | hooks/useTyping.ts:25-37 | a burst of keystrokes less than 2000 ms apart, followed by 2000 ms of silence, posts exactly one "started" and one "stopped" |
| TypingEmitter.Emitter.constructor | hooks/useTyping.ts:9-10 | a new emitter is in the initial state |
| TypingEmitter.Emitter.HandleTyping | hooks/useTyping.ts:25-37 | the object's new state is the keystroke step of its old state |
| TypingEmitter.Emitter.AdvanceTo | hooks/useTyping.ts:33-36 | the object's new state is the time-passing step of its old state |
| TypingEmitter.Emitter.StopTyping | components/Chat.tsx:206-207 | the object's new state is the send step of its old state |
| TypingTracker.SetTyping | hooks/useTyping.ts:45-50 | the user is in the new set exactly when the event says they are typing; every other user keeps their membership |
| TypingTracker.Unset | hooks/useTyping.ts:53-57 | the user is removed and every other user keeps their membership; removing an absent user changes nothing |
| TypingTracker.StartValid | hooks/useTyping.ts:8 | the initial tracker (nobody shown, nothing scheduled) is valid |
| TypingTracker.AfterEvent | hooks/useTyping.ts:44-59 | membership follows the event for its user and is unchanged for everyone else; one expiry at now + 3000 ms is queued behind the others; validity is preserved |
| TypingTracker.Advance | hooks/useTyping.ts:52-58 | no user is added; every user with a passed expiry is gone; a user none of whose removals is due stays shown; the queue keeps exactly its entries after the due head, all in the future; validity is preserved |
| TypingTracker.ShownUntilOwnExpiry | hooks/useTyping.ts:44-58 | a user announced as typing while no removal of theirs is pending stays shown at every instant before 3000 ms have passed |
| TypingTracker.ExpireAll | hooks/useTyping.ts:52-58 | from any valid state, 3000 ms later nobody is shown as typing |
| TypingTracker.TypingThenSilence | hooks/useTyping.ts:44-59 | a "typing" event shows the user, and 3000 ms of silence afterwards clears the whole set |
| TypingTracker.EarlierRemovalStillRuns | hooks/useTyping.ts:52-58 | a second "typing" event 2500 ms after the first does not postpone the first expiry: 500 ms later the user is hidden while the removal armed by the second event is still pending |
| TypingTracker.Tracker.constructor | hooks/useTyping.ts:8 | a new tracker is in the initial state |
| TypingTracker.Tracker.Receive | hooks/useTyping.ts:44-59 | the object's new state is the event step of its old state |
| TypingTracker.Tracker.AdvanceTo | hooks/useTyping.ts:52-58 | running the due expiry callbacks one at a time, in deadline order, yields the time-passing step of the old state |
| RouteGuard.Middleware | middleware.ts:3-22 | to "/" exactly when there is no token and the path is protected; to "/threads" exactly when there is a token and the path is "/"; otherwise pass through |
| RouteGuard.PrefixNotSegment | middleware.ts:8-26 | the middleware function on its own would redirect "/threadsX" and "/about-us" to "/", since its tests are plain string prefixes and an empty cookie counts as no token; the matcher at line 25 keeps those paths out, so in the app they pass through |
| RouteGuard.NoRedirectLoop | middleware.ts:8-21 | the target of every redirect, requested again with the same token, passes through |
| RouteGuard.Guard | middleware.ts:24-26 | paths outside the matcher pass through untouched; matched paths get the middleware's answer |
| RouteGuard.MatchedPathsDecision | middleware.ts:3-26 | on matched paths, a visitor without a token is redirected exactly when the path is not "/", and a signed-in user passes through exactly when it is not "/" |
| ChatList.Property | components/ChatList.tsx:82 | optional property access yields the field's value on an object that has it, and undefined otherwise |
| ChatList.NormalizeToArray | components/ChatList.tsx:80-84 | an array is returned as is; otherwise an array under "data" is returned; anything else gives the empty list |
| ChatList.NormalizeIdempotent | components/ChatList.tsx:80-84 | normalising a normalised list changes nothing |
| ChatList.DisplayedList | components/ChatList.tsx:86-88 | a blank query shows the normalised conversations; any other query shows the normalised "users" of the search results |
| ChatList.QueryEffect | components/ChatList.tsx:39-62 | results are cleared exactly when the query is blank; otherwise a search for the query is scheduled 400 ms later |
| ChatList.ActiveId | components/ChatList.tsx:17 | there is no active id exactly when "/threads/" does not occur in the path |
| ChatList.ActiveIdShape | components/ChatList.tsx:17 | the active id is the text that follows the first "/threads/", up to the next one or the end |
| ChatList.ActiveIdOfThreadLink | components/ChatList.tsx:17 | for the link "/threads/" + id built at line 134, with an id that does not itself contain "/threads/", the active id is that id |
| Chat.ReplyTarget | components/Chat.tsx:199 | the request carries a parentId exactly when a message is being replied to, and it is that message's id |
| Chat.ChatView.constructor | components/Chat.tsx:25-36 | the view starts with no messages, empty input, no reply target, no thread expanded, and emitter and tracker in their initial states |
| Chat.ChatView.OnFetched | components/Chat.tsx:55-68 | the list becomes the fetch step of the old list; nothing else changes |
| Chat.ChatView.OnMessage | components/Chat.tsx:84-103 | the list becomes the merge of the old list with the message; nothing else changes |
| Chat.ChatView.OnTyping | components/Chat.tsx:106-138 | the user's own events leave the tracker unchanged; a peer's event applies the tracker's event step |
| Chat.ChatView.OnInputChange | components/Chat.tsx:152-166 | the input holds the new value and the emitter takes its keystroke step |
| Chat.ChatView.SetReplyingTo | components/Chat.tsx:315 | the reply target becomes the chosen message, or none |
| Chat.ChatView.SendMessage | components/Chat.tsx:186-212 | blank input does nothing; otherwise a request with the text and the reply target's id is recorded; on success the input and reply target are cleared and "typing stopped" is posted with the timer left armed; on failure the input is kept |
| Chat.ChatView.ToggleThread | components/Chat.tsx:214-224 | the expanded set becomes the toggle of the old set at that id |
| Chat.ChatView.AdvanceTo | components/Chat.tsx:129-165 | emitter and tracker both take their time-passing step to the same instant, and the view stays valid |
| MessageInput.Composer.constructor | components/MessageInput.tsx:9 | a new composer has empty text and has sent nothing |
| MessageInput.Composer.OnChange | components/MessageInput.tsx:23 | the text becomes the new value |
| MessageInput.Composer.HandleSend | components/MessageInput.tsx:11-15 | blank text changes nothing and sends nothing; other text is sent once, untrimmed, and the field is cleared |
| VerifyCode.DigitsOnly | components/VerifyCodeForm.tsx:59 | the filtered code contains only ASCII digits and is no longer than the input |
| VerifyCode.DigitsOnlyKeepsDigits | components/VerifyCodeForm.tsx:59 | every digit occurs in the filtered code exactly as often as in the input |
| VerifyCode.DigitsOnlyConcat | components/VerifyCodeForm.tsx:59 | filtering a concatenation filters each part |
| VerifyCode.DigitsOnlyFixedPoints | components/VerifyCodeForm.tsx:59 | the filter leaves a string unchanged exactly when it is all digits |
| VerifyCode.DigitsOnlyIdempotent | components/VerifyCodeForm.tsx:59 | filtering twice is filtering once |
| VerifyCode.FilteredBlankIsEmpty | components/VerifyCodeForm.tsx:21 | a filtered code is blank exactly when it is empty, so the trim in the guard adds nothing |
| VerifyCode.SubmitCode | components/VerifyCodeForm.tsx:19-31 | a blank code is rejected with "Please enter the code."; anything else is posted with the email |
| ResetPasswordForm.FirstIssue | components/ResetPasswordForm.tsx:6-14 | no issue exactly when the password has at least 6 UTF-16 units and matches its confirmation; a short password reports the length message first; a long enough one reports a mismatch |
| ResetPasswordForm.SixCharactersSuffice | components/ResetPasswordForm.tsx:8 | any six characters pass the length rule, since a character never counts for less than one unit |
| ResetPasswordForm.SubmitPassword | components/ResetPasswordForm.tsx:31-43 | the request is sent exactly when validation passes, with the email and the new password; otherwise the first issue is shown |
| ResetWizard.Apply | components/ResetPassword.tsx:19-30 | a successful request moves to the verify step and stores the reported email; a verified code moves to the reset step; "change email" goes back to the email step; the last two keep the email |
| ResetWizard.EnteringSteps | components/ResetPassword.tsx:17-35 | through the offered callbacks, the reset step is entered only from the verify step by a verified code, and the verify step only by a successful request |
| ResetWizard.SettersIgnoreStep | components/ResetPassword.tsx:29 | the setters do not look at the current step: a late "code verified" in the email step would jump to the reset step, and it is not among that step's offered callbacks |
| ResetWizard.EmailIsLastRequested | components/ResetPassword.tsx:11-31 | after any admissible sequence of callbacks the stored email is the one from the last successful request, or "" if none; outside the email step there was one |
| ResetWizard.ResetPage.constructor | components/ResetPassword.tsx:11-12 | the page starts at the email step with an empty email and no history |
| ResetWizard.ResetPage.RequestSucceeded | components/ResetPassword.tsx:19-22 | the page moves to the verify step with the reported email; the event is recorded |
| ResetWizard.ResetPage.CodeVerified | components/ResetPassword.tsx:29 | the page moves to the reset step and keeps the email |
| ResetWizard.ResetPage.ChangeEmail | components/ResetPassword.tsx:30 | the page returns to the email step and keeps the email |
| ResetWizard.ResetPage.StoredEmail | components/ResetPassword.tsx:11-31 | the page's email is the one from the last successful request in its history |

## Left out

- Network and platform calls are not modelled; each is replaced as follows:
  - `fetch` results become a `FetchOutcome` parameter.
  - Posts to the typing endpoint become the emitter's `sent` log.
  - Message posts become `ChatView.requests`, with their success as a parameter.
  - The Pusher subscription, `channel.bind` and the unsubscribe in effect cleanup are left out.
  - `axios` and `router.push` are left out, including the navigation on a successful reset at `components/ResetPassword.tsx:34`.
- React scheduling is not modelled. Each handler runs to completion on the current state, and functional updaters are applied at once. That leaves out:
  - stale closures;
  - batching;
  - the `await` in `sendMessage`, which lets other events run between the request and its response.
- Unmounting is not modelled. The source's effect cleanups only unbind and unsubscribe the channel (`hooks/useTyping.ts:60-62`, `components/Chat.tsx:139-142`) and clear no timer. So an armed inactivity timer still posts `false`, and the pending expiries still run, after unmount. The model has no unmount event, and its clock simply keeps running those callbacks.
- The search request inside the 400 ms debounce is left out: `QueryEffect` models only the decision to clear or schedule. The conversation list fetch, its loading flags and logout are left out too.
- Rendering is left out, as are the scroll-to-bottom effect, `formatTime`, the emoji picker (`addEmoji`, `useEmojiPicker`), the login page and the service modules.
- `components/RequestResetForm.tsx` is not part of this model beyond the email it reports through `onSuccess`.
- Server answers to the verify and reset requests are not modelled (success messages, error texts, loading flags). Nor is the browser's `maxLength={6}` on the code field.
- `ResetWizard.ResetPage.RequestSucceeded`, `ResetWizard.ResetPage.CodeVerified`, `ResetWizard.ResetPage.ChangeEmail`: each requires `Offered(step, …)`, that is, the callback belongs to the form shown at the current step. This excludes a late `onSuccess`: the verify and request forms call it 800 ms after success (`components/VerifyCodeForm.tsx:35`, `components/RequestResetForm.tsx:38`), and by then the page may have changed step. `ResetWizard.SettersIgnoreStep` shows what such a late callback does to the pure state.
- `ResetPasswordForm.FirstIssue`: zod reports every failed rule, but the model keeps only the first issue, which is the one the form shows.
- `Message.parent` (the populated parent object) is not modelled. Timestamps are opaque strings.
- JSON numbers are integers; floating point and NaN are not modelled. Property access on `null` would throw in JavaScript; the state the code reads is never `null`, so `Property` returns undefined there.
- `RouteGuard.Guard`: the Next.js matcher is modelled as exact `/`, `/threads` or `/about` prefixes with their sub-paths. Trailing slashes, locales and internal `_next` routes are not modelled. A redirect target is a path, not the absolute URL built from `request.url`.
- `TypingEmitter.Emitter`: the source calls `clearTimeout` on a handle that may already have fired. In the model that is a no-op on the timer table, so the stale ref behaves the same.
