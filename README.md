# EmsiConnect rules in Dafny

EmsiConnect is a campus social network. It has two halves:

- a Django REST backend with accounts, password-reset links, posts, likes, saved posts and comments;
- a React frontend with a direct-message chat, groups, resources and post cards.

Most of the code is rendering and request plumbing. This project models the deterministic rules inside it and proves what they promise.

- **Chat connection** (`chat.dfy`, module `Chat`). The direct-message screen is a class `ChatSession`. It holds:
  - the selected peer, the status line and the connected flag;
  - the reconnect counter and the socket's ready state;
  - the message list, the text box and the armed reconnect timers.

  Each handler is a method: `connectWebSocket`, the effect, `onopen`, `onmessage`, `onclose`, the timer callback, `onerror` and `handleSend`. The pure pieces are functions with lemmas: the backoff formula, the close-code dispatch and the incoming-message append.
- **Server** (`api_models.dfy` and `api_views.dfy`, modules `Models` and `Views`).
  - The store is a class `Database` whose tables are sequences. A `Valid()` invariant holds the schema's uniqueness constraints and auto-increment ids that stay ahead of every row.
  - Each view method is specified against the old tables: password reset, reset-link request, profile patch, like/unlike, save/unsave, and comment create/edit/delete.
  - Login and its helpers are functions.
  - Time is an integer number of seconds. The password check and hashing are parameters.
- **List reducers and forms**:
  - `multi_select.dfy`, `collapsible.dfy`, `post_card.dfy`, `group.dfy` and `group_manager.dfy`;
  - `add_members.dfy`, `resources.dfy` and `create_post.dfy`;
  - `register.dfy`, `login_form.dfy` and `forgot_password.dfy`.

  Each filter or map callback is one function over `seq`, stated as "only those entries go, the rest stay, in order". Each screen's state is a class whose methods are its handlers. Network outcomes are method parameters.
- **Shared** (`common.dfy`, module `Common`):
  - JavaScript truthiness and `||`, and `trim` over ECMAScript whitespace;
  - `toLowerCase`/`toUpperCase`, `substring`, `filter`/`map`/`find`;
  - `parseInt` together with `String(n)`, with the round trip `parseInt(String(n)) == n`;
  - the e-mail pattern `\S+@\S+\.\S+`, both as the regular expression taken literally and as the reduced test the forms run, proved equivalent.

Some behaviours of the code as written are modelled exactly, because the model follows the code:

- `ResetPasswordView.post` returns nothing when an accepted token names no user row. The framework then answers with a server error, and the token is not marked used.
- `ForgotPasswordView.post` looks the e-mail up with `get`, so an unknown address is an uncaught exception, i.e. a server error. The form (`ForgotPasswordForm.jsx`) asks `checkUser` first and stops on an unknown address, so the screen never sends one to this view.
- In `Chat.jsx`, `onopen` resets the counter. When it was not already 0 this re-runs the effect, which closes the socket that just opened (code 1000) and opens another. A reconnect timer likewise opens two sockets: one in its callback and one from the effect that the counter change triggers. The status it sets ("Reconnecting… (n/5)") is overwritten by "Connecting..." in the same update.
- `GroupManager.jsx` drops the user whose `id` equals the stored user's `id` field. The stored user only has `user_id`, so nobody is excluded. `shift()` then drops the first remaining user.
- `login-form.jsx` calls `toast.error` on a failed login without importing `toast`. The call throws a `ReferenceError`, so no toast appears and the error escapes the submit handler; `finally` still ends loading.
- `PostCard.jsx` shows the owner menu on "/profile/" and on "/profile/undefined" when no user is stored.
- `Register.jsx` tests its campus e-mail pattern on the untrimmed address after the required check on the trimmed one. `login-form.jsx` and `ForgotPasswordForm.jsx` check the required e-mail untrimmed: a blank address is "invalid", not "required". Their pattern is unanchored, so it only has to occur somewhere in the text.

## Model

| member | source | states |
|---|---|---|
| Common.OrElse | frontend/src/screens/Chat.jsx:87 | `s \|\| fallback`: a non-empty string is kept, null, undefined and "" give the fallback |
| Common.TrimStartSpec | frontend/src/screens/Chat.jsx:161 | left `trim` removes a prefix made only of whitespace and stops at the first non-whitespace character |
| Common.TrimEndSpec | frontend/src/screens/Chat.jsx:161 | right `trim` removes a suffix made only of whitespace and stops at the last non-whitespace character |
| Common.TrimEmptyIffAllSpace | frontend/src/screens/Chat.jsx:156 | `!s.trim()` holds exactly when every character of `s` is whitespace |
| Common.Lower | frontend/src/components/ui/multi-select.jsx:46 | `toLowerCase` keeps the length and lowercases each character in place |
| Common.Upper | frontend/src/screens/Group.jsx:134 | `toUpperCase` keeps the length and uppercases each character in place |
| Common.Prefix | frontend/src/screens/Group.jsx:134 | `substring(0, n)` is the first `min(n, length)` characters |
| Common.Utf16Length | frontend/src/screens/Register.jsx:101 | `length` counts UTF-16 code units: one per character of the Basic Multilingual Plane, two for any other, so it lies between the character count and twice it, and is 0 only for "" |
| Common.Utf16LengthBmp | frontend/src/screens/Register.jsx:101 | for text made only of Basic Multilingual Plane characters, `length` is the character count |
| Common.Utf16LengthConcat | frontend/src/screens/Register.jsx:101 | the `length` of a concatenation is the sum of the lengths |
| Common.FirstWhere | frontend/src/screens/GroupManager.jsx:276 | `find` gives the first position whose element satisfies the test, and none exactly when no element does |
| Common.ParseIntOfIntToString | frontend/src/screens/GroupManager.jsx:344 | `parseInt` of an id's `toString` gives the id back, negatives included |
| Common.IntToStringInjective | frontend/src/components/PostCard.jsx:255 | different ids have different decimal texts |
| Common.PluralSuffix | frontend/src/components/AddMembersForm.jsx:191 | the suffix is "s" unless the count is exactly 1 |
| Common.LooksLikeEmailIffRegex | frontend/src/components/login-form.jsx:79 | the reduced test accepts exactly the strings where `\S+@\S+\.\S+` matches somewhere |
| Chat.ReconnectDelay | frontend/src/screens/Chat.jsx:116 | the delay is `1000·2^attempts` or the 30000 cap, whichever is smaller, so it stays within [1000, 30000] |
| Chat.ReconnectDelayFirstFive | frontend/src/screens/Chat.jsx:116 | attempts 0 to 4 wait 1000, 2000, 4000, 8000 and 16000 ms |
| Chat.ReconnectDelayMonotone | frontend/src/screens/Chat.jsx:116 | a higher counter never waits less |
| Chat.StatusTextInjective | frontend/src/screens/Chat.jsx:51-134 | different connection states show different status lines, including which retry is running |
| Chat.ReconnectDelayStrictlyIncreasing | frontend/src/screens/Chat.jsx:111-116 | over the counters that may still retry (0 to 4) the delay strictly grows |
| Chat.ReconnectDelayAtCap | frontend/src/screens/Chat.jsx:116 | from counter 5 on, the formula sits at 30000 |
| Chat.CloseDecision | frontend/src/screens/Chat.jsx:100-129 | 4001 means "Authentication failed" and no retry; 1000 never retries; a retry is armed exactly when a peer is selected, the code is neither and fewer than 5 attempts were made, and it waits `ReconnectDelay(attempts)`; otherwise 5 or more attempts give the max-retries status and fewer give "Disconnected" |
| Chat.RetryDelays | frontend/src/screens/Chat.jsx:111-125 | a connection that keeps failing from counter `n` arms exactly `5 - n` timers, and none from 5 on |
| Chat.RetryScheduleFromZero | frontend/src/screens/Chat.jsx:111-128 | from a fresh counter a failing connection retries exactly five times, after 1, 2, 4, 8 and 16 s, then reports max retries |
| Chat.AppendIncoming | frontend/src/screens/Chat.jsx:75-98 | a `chat_message` frame adds exactly one entry at the tail (sender, username or "Unknown", text), keeping the earlier ones; any other type and an unparseable frame change nothing |
| Chat.BlankInputNeverSent | frontend/src/screens/Chat.jsx:155-158 | text made only of whitespace is never sent, whatever the socket state |
| Chat.ChatSession.constructor | frontend/src/screens/Chat.jsx:5-14 | no peer, "Disconnected", not connected, counter 0, no socket, no messages |
| Chat.ChatSession.Connect | frontend/src/screens/Chat.jsx:49-65 | no peer gives the select prompt and no peer with no token gives the token error, both opening nothing; otherwise one new socket to the given peer, in the opening state, and "Connecting..." |
| Chat.ChatSession.RunEffect | frontend/src/screens/Chat.jsx:43-147 | a live socket is first closed, then a connection is made when a peer is selected; nothing else of the session changes |
| Chat.ChatSession.SelectUser | frontend/src/screens/Chat.jsx:215 | reselecting the current peer changes nothing; a new peer re-runs the effect |
| Chat.ChatSession.OnOpen | frontend/src/screens/Chat.jsx:67-73 | connected and counter 0; with a counter already 0 the status is "Connected" and the socket open, otherwise the effect replaces the socket |
| Chat.ChatSession.OnMessage | frontend/src/screens/Chat.jsx:75-98 | the message list becomes `AppendIncoming` of the old one; nothing else changes |
| Chat.ChatSession.OnClose | frontend/src/screens/Chat.jsx:100-129 | not connected, socket closed, status and timer exactly as `CloseDecision` says; an armed timer keeps the peer and counter of this closure; the counter is kept |
| Chat.ChatSession.OnReconnectTimer | frontend/src/screens/Chat.jsx:117-125 | the fired timer is removed and the counter becomes the current counter plus one; the overwritten status line uses the captured counter; the callback connects to the peer the timer captured, and the effect then to the selected peer, so with a token the status is "Connecting..." and one socket per non-empty peer is created |
| Chat.ChatSession.OnError | frontend/src/screens/Chat.jsx:131-135 | not connected and "Connection Error"; nothing else changes |
| Chat.ChatSession.SetInput | frontend/src/screens/Chat.jsx:257 | the text box takes the typed value |
| Chat.ChatSession.Send | frontend/src/screens/Chat.jsx:149-183 | with no peer only the alert; with non-blank text and an open socket the trimmed text is sent and appended at the tail under the stored id or "you" and name or "You", and the box is cleared; otherwise nothing changes |
| Models.NewToken | backend/api/models.py:7-13 | a new reset token is not used, and its other fields are those given |
| Models.NewUser | backend/api/models.py:16-24 | a new user's role is the one given, or "etudiant" by default; a new user is not staff |
| Models.InsertKeepsUsersUnique | backend/api/models.py:20-21 | adding a user whose id, username and e-mail are all new keeps all three unique |
| Models.ReplaceKeepsUsersUnique | backend/api/models.py:20-21 | rewriting a user's row with a username and e-mail no other row has keeps the constraints |
| Models.AppendKeepsNoDuplicates | backend/api/models.py:60-62 | adding a (post, user) pair that is absent keeps at most one row per pair |
| Models.RemoveKeepsNoDuplicates | backend/api/models.py:60-62 | deleting a row leaves no copy of it and still no duplicates |
| Models.NumLikes | backend/api/models.py:42-43 | a post's like count never exceeds the number of like rows |
| Models.NumComments | backend/api/models.py:39-40 | a post's comment count never exceeds the number of comment rows |
| Models.NumLikesConcat | backend/api/models.py:42-43 | the like count adds up over two parts of the table |
| Models.NumCommentsConcat | backend/api/models.py:39-40 | the comment count adds up over two parts of the table |
| Models.NumLikesAfterInsert | backend/api/models.py:42-43 | a new like raises its own post's count by one and no other post's |
| Models.NumLikesAfterDelete | backend/api/models.py:42-43 | deleting a like lowers its own post's count by one and no other post's |
| Models.NumCommentsAfterInsert | backend/api/models.py:39-40 | a new comment raises its own post's count by one and no other post's |
| Models.NumCommentsAfterDelete | backend/api/models.py:39-40 | deleting a comment lowers its own post's count by one and no other post's |
| Models.NumCommentsAfterEdit | backend/api/models.py:39-40 | editing a comment's text changes no post's count |
| Models.IndexOf | backend/api/views.py:360 | `get` of a row gives a position holding it, and none exactly when it is absent |
| Views.LatestToken | backend/api/views.py:49 | none exactly when no row has that user id and token; otherwise a matching row created no earlier than any other match |
| Views.CheckResetToken | backend/api/views.py:52-77 | the checks run in order: missing, then used, then expired when `expires_at < now`; the link is accepted exactly when it exists, is unused and `now <= expires_at` |
| Views.FreshTokenLifetime | backend/api/views.py:98-99 | a freshly issued link is accepted up to and including one hour after creation, and expired after that |
| Views.UsedTokenRefused | backend/api/views.py:61-68 | once a reset marked a link used, that link is refused at any later time |
| Views.UserWithEmail | backend/api/views.py:164 | the position of a user with that e-mail, none exactly when no user has it |
| Views.UserWithId | backend/api/views.py:82 | the position of a user with that id, none exactly when no user has it |
| Views.Login | backend/api/views.py:158-196 | success exactly when a user has the e-mail and the password checks against that user's hash, and then a 200 and an access token for that user; every failure is the same 401 "Invalid credentials!" |
| Views.LoginHidesWhichCheckFailed | backend/api/views.py:180-196 | an unknown e-mail and a wrong password give identical replies |
| Views.ApplyPatch | backend/api/views.py:258-261 | a partial update replaces exactly the fields it carries and keeps the id, hash and staff flag |
| Views.OwnComment | backend/api/views.py:420 | the requester's own comment with that id on that post, none exactly when there is no such row |
| Views.CommentOnPost | backend/api/views.py:434 | the comment with that id on that post, whoever wrote it, none exactly when there is no such row |
| Views.AppendKeepsCommentIds | backend/api/views.py:406 | a comment under the next id keeps comment ids unique and below the next id |
| Views.RemoveKeepsCommentIds | backend/api/views.py:437-438 | deleting a comment keeps ids unique and removes its id |
| Views.Database.constructor | backend/api/models.py:7-63 | a store with the given users and posts and empty other tables satisfies every constraint |
| Views.Database.ResetPassword | backend/api/views.py:43-91 | each failed check answers its message and changes nothing; an accepted link with no user row is a server error that changes nothing; otherwise exactly that user's hash is replaced and exactly that token marked used |
| Views.Database.ForgotPassword | backend/api/views.py:94-133 | an unknown or missing e-mail is a server error; a token over 255 characters is refused; otherwise exactly one unused token for that user is appended, valid from `now` to `now + 3600` |
| Views.Database.PatchUser | backend/api/views.py:248-262 | a missing profile is a 404; anyone but the owner or staff gets a 403; a clashing username or e-mail is a 400; only a successful patch rewrites the user's row, exactly as `ApplyPatch`, keeping the constraints |
| Views.Database.LikePost | backend/api/views.py:335-351 | a missing post is a 404; a second like is a 400 that adds nothing; otherwise exactly that like is added and the count returned is the old one plus one |
| Views.Database.UnlikePost | backend/api/views.py:353-367 | a missing post is a 404; no like is a 400 that changes nothing; otherwise exactly that (post, user) row goes and the count returned is one less |
| Views.Database.LikeStatus | backend/api/views.py:372-384 | for an existing post: whether the requester likes it, and its like count |
| Views.Database.SavePost | backend/api/views.py:483-497 | a missing post is a 404; a second save is a 400 that adds nothing; otherwise exactly that record is added with a 201 |
| Views.Database.UnsavePost | backend/api/views.py:499-511 | a missing post is a 404; no record is a 400 that changes nothing; otherwise exactly that record goes |
| Views.Database.SaveStatus | backend/api/views.py:530-539 | for an existing post: whether the requester saved it |
| Views.Database.CreateComment | backend/api/views.py:397-408 | a missing post is a 404; missing or empty content is a 400 that adds nothing; otherwise one comment by the requester is appended under a fresh id and the post's count grows by one |
| Views.Database.UpdateComment | backend/api/views.py:410-429 | empty content is a 400; only the requester's own comment on that post is edited, in place; any other comment is a 404 that changes nothing |
| Views.Database.DeleteComment | backend/api/views.py:431-441 | a comment not on the post is the framework's 404; someone else's comment is a 404 with a message; only the requester's own comment is deleted, lowering the count by one |
| MultiSelect.RemoveOption | frontend/src/components/ui/multi-select.jsx:41-43 | no entry with the option's value is left; every other entry stays |
| MultiSelect.RemoveOptionConcat | frontend/src/components/ui/multi-select.jsx:41-43 | removal works entry by entry, so the survivors keep their order |
| MultiSelect.RemoveAbsent | frontend/src/components/ui/multi-select.jsx:41-43 | removing a value no entry carries changes nothing |
| MultiSelect.ToggleOption | frontend/src/components/ui/multi-select.jsx:31-39 | after a toggle the option is selected exactly when it was not; a new option is appended at the end and a selected one is removed everywhere |
| MultiSelect.ToggleTwiceRestores | frontend/src/components/ui/multi-select.jsx:31-39 | toggling an unselected option twice gives back the original selection |
| MultiSelect.ToggleTwiceMovesToEnd | frontend/src/components/ui/multi-select.jsx:31-39 | toggling a selected option twice drops all its copies and puts it once at the end |
| MultiSelect.FilterOptions | frontend/src/components/ui/multi-select.jsx:45-47 | exactly the options whose lowercased label contains the lowercased term are kept |
| MultiSelect.FilterOptionsConcat | frontend/src/components/ui/multi-select.jsx:45-47 | the search keeps the matching options in their order |
| MultiSelect.EmptyTermKeepsAll | frontend/src/components/ui/multi-select.jsx:45-47 | an empty term keeps every option |
| MultiSelect.ButtonLabel | frontend/src/components/ui/multi-select.jsx:57-59 | an empty selection shows the placeholder |
| MultiSelect.ButtonLabelShowsCount | frontend/src/components/ui/multi-select.jsx:57-59 | a non-empty selection shows its size, read back by `parseInt`, followed by " selected" |
| Collapsible.CollapsibleChat.constructor | frontend/src/components/ui/collabsible.jsx:4-7 | open as the prop says, empty input, no messages |
| Collapsible.CollapsibleChat.Toggle | frontend/src/components/ui/collabsible.jsx:10-12 | the panel flips, so two toggles restore it, and nothing else changes |
| Collapsible.CollapsibleChat.SetMessage | frontend/src/components/ui/collabsible.jsx:74 | the input takes the typed value |
| Collapsible.CollapsibleChat.Send | frontend/src/components/ui/collabsible.jsx:14-25 | non-blank text is appended once at the tail, untrimmed, under the box's user id and "You", and the input is cleared; blank text changes nothing |
| PostCard.ReplaceComment | frontend/src/components/PostCard.jsx:91-97 | length and order are kept; exactly the entries with the updated id become the update |
| PostCard.DeleteComment | frontend/src/components/PostCard.jsx:99-103 | no entry with that id is left; every other entry stays |
| PostCard.DeleteCommentConcat | frontend/src/components/PostCard.jsx:99-103 | deletion keeps the surviving comments in their order |
| PostCard.DeleteAbsentComment | frontend/src/components/PostCard.jsx:99-103 | deleting an id no comment has changes nothing |
| PostCard.ReplaceCommentIdempotent | frontend/src/components/PostCard.jsx:91-97 | applying the same update twice equals applying it once |
| PostCard.DeleteAfterReplace | frontend/src/components/PostCard.jsx:91-103 | an edit followed by deleting that id leaves what the deletion alone leaves |
| PostCard.LikeWord | frontend/src/components/PostCard.jsx:308 | "Like" exactly when the count is 1, otherwise "Likes" |
| PostCard.OwnerMenuOnlyOnOwnProfile | frontend/src/components/PostCard.jsx:250-255 | on "/profile/{id}" the owner menu shows exactly when the stored id is that id, and never with no stored user |
| PostCard.PostCardState.constructor | frontend/src/components/PostCard.jsx:43-50 | not liked, not saved, no request in flight, count `num_likes` or 0 |
| PostCard.PostCardState.BeginLike | frontend/src/components/PostCard.jsx:129-134 | a no-op while a like request is in flight; otherwise the flag is set, `liked` is captured (it picks unlike or like), and liked and count are untouched |
| PostCard.PostCardState.FinishLike | frontend/src/components/PostCard.jsx:133-156 | success sets `liked` to the opposite of the value captured at the click, even if a status fetch changed it since, and takes the server's count; failure keeps both and alerts the server's message or the fallback; the flag is cleared either way |
| PostCard.PostCardState.BeginSave | frontend/src/components/PostCard.jsx:159-164 | a no-op while a save request is in flight, with its own flag; otherwise `saved` is captured |
| PostCard.PostCardState.FinishSave | frontend/src/components/PostCard.jsx:163-183 | success sets `saved` to the opposite of the value captured at the click and toasts which way it went by that value; failure keeps it and toasts the error; the flag is cleared |
| PostCard.PostCardState.LikeStatusFetched | frontend/src/components/PostCard.jsx:66-75 | `checkLikeStatus`: the server's flag and count replace the card's; a failed request changes nothing |
| PostCard.PostCardState.SaveStatusFetched | frontend/src/components/PostCard.jsx:78-85 | `checkSaveStatus`: the server's flag replaces the card's; a failed request changes nothing |
| PostCard.PostCardState.CommentsFetched | frontend/src/components/PostCard.jsx:105-115 | `fetchComments`: the fetched list replaces the card's comments; a failed request changes nothing |
| PostCard.PostCardState.CommentUpdated | frontend/src/components/PostCard.jsx:91-97 | the list becomes `ReplaceComment` of the old one; nothing else changes |
| PostCard.PostCardState.CommentDeleted | frontend/src/components/PostCard.jsx:99-103 | the list becomes `DeleteComment` of the old one; nothing else changes |
| Group.ActionFor | frontend/src/screens/Group.jsx:521-553 | edit exactly for the admin; leave exactly for a member who is not admin; join for everyone else |
| Group.AnonymousViewerCanOnlyJoin | frontend/src/screens/Group.jsx:371-373 | with no viewer, neither admin nor member holds, so only join is offered |
| Group.RemoveMember | frontend/src/screens/Group.jsx:409-411 | no member with that id is left; every other member stays |
| Group.RemoveMemberConcat | frontend/src/screens/Group.jsx:409-411 | the remaining members keep their order |
| Group.MembershipAfterRemoval | frontend/src/screens/Group.jsx:372-373 | after a removal a viewer is a member exactly when they were one and are not the removed user |
| Group.RemoveButtonForOthersOnly | frontend/src/screens/Group.jsx:286 | the admin never gets a remove button on their own card, and an admin viewer gets one on every other card |
| Group.AvatarFallback | frontend/src/screens/Group.jsx:133-135 | the first two characters uppercased, or "GP" for an empty name |
| Group.GroupPage.constructor | frontend/src/screens/Group.jsx:324-335 | no group, no members, loading, no error |
| Group.GroupPage.FetchGroupData | frontend/src/screens/Group.jsx:337-357 | a loaded group sets the admin and its members, or none when the field is absent; either failure sets the load error; loading ends |
| Group.GroupPage.BeginJoin | frontend/src/screens/Group.jsx:375-378 | a no-op while a join is in flight |
| Group.GroupPage.FinishJoin | frontend/src/screens/Group.jsx:379-390 | a join reloads the group as `FetchGroupData` does, a failure sets the join error, and the flag is cleared |
| Group.GroupPage.Leave | frontend/src/screens/Group.jsx:393-403 | success changes nothing on the page; failure navigates to the groups list and sets the error |
| Group.GroupPage.RemoveMemberById | frontend/src/screens/Group.jsx:405-419 | success removes exactly that member; failure keeps the list, sets the error and rethrows |
| Group.MemberCard.constructor | frontend/src/screens/Group.jsx:220-225 | dialog closed, not removing |
| Group.MemberCard.OpenAlert | frontend/src/screens/Group.jsx:290 | the confirmation dialog opens |
| Group.MemberCard.BeginRemove | frontend/src/screens/Group.jsx:227-230 | nothing happens without a handler or while a removal runs; otherwise the flag is set |
| Group.MemberCard.FinishRemove | frontend/src/screens/Group.jsx:233-236 | whatever the outcome, the flag is cleared and the dialog closes |
| GroupManager.UserChoice | frontend/src/screens/GroupManager.jsx:266-269 | the option's value reads back by `parseInt` as the user's id; its label is the username or else the e-mail |
| GroupManager.OtherUsers | frontend/src/screens/GroupManager.jsx:264-265 | exactly the users other than the excluded id are kept |
| GroupManager.OtherUsersConcat | frontend/src/screens/GroupManager.jsx:264-265 | the kept users stay in their order |
| GroupManager.OtherUsersKeepsAll | frontend/src/screens/GroupManager.jsx:265 | with no id to exclude (`user?.id` undefined), every user is kept |
| GroupManager.FormatUsers | frontend/src/screens/GroupManager.jsx:264-271 | `max(0, kept - 1)` options: the kept users as options, without the first one |
| GroupManager.SelectedLabel | frontend/src/screens/GroupManager.jsx:276-279 | the label of the first fetched user with the id, or "User #id" when none has it |
| GroupManager.SelectedFor | frontend/src/screens/GroupManager.jsx:274-282 | one option per group user, in the group's order, valued by the id's text |
| GroupManager.ParseSelection | frontend/src/screens/GroupManager.jsx:344 | one `parseInt` result per option, in selection order |
| GroupManager.SelectionRoundTrip | frontend/src/screens/GroupManager.jsx:274-282 | an untouched pre-selection parses back to the group's own user ids, in order |
| GroupManager.FormattedOptionsParse | frontend/src/screens/GroupManager.jsx:264-271 | every offered option parses back to the id of the user it stands for |
| GroupManager.DeleteGroup | frontend/src/screens/GroupManager.jsx:370-372 | no group with that id is left; every other group stays |
| GroupManager.DeleteGroupConcat | frontend/src/screens/GroupManager.jsx:370-372 | the remaining groups keep their order |
| GroupManager.DeleteMenuOnlyForAdmin | frontend/src/screens/GroupManager.jsx:63 | the card's menu shows exactly for the stored user who is the group's admin |
| GroupManager.GroupManagerState.constructor | frontend/src/screens/GroupManager.jsx:221-238 | no groups, an empty form, no options, no selection, nothing edited |
| GroupManager.GroupManagerState.UsersFetched | frontend/src/screens/GroupManager.jsx:259-287 | the options become `FormatUsers`; a group being edited with users gets `SelectedFor` as its selection |
| GroupManager.GroupManagerState.ResetForm | frontend/src/screens/GroupManager.jsx:294-302 | empty name, bio and users, no selection, nothing edited |
| GroupManager.GroupManagerState.SelectionChanged | frontend/src/screens/GroupManager.jsx:340-346 | the selection is stored and the form's users become the parsed values, in order; the rest of the form is kept |
| GroupManager.GroupManagerState.Delete | frontend/src/screens/GroupManager.jsx:366-377 | success removes exactly that group; failure keeps the list and raises the alert |
| AddMembers.CandidateUsers | frontend/src/components/AddMembersForm.jsx:28-35 | exactly the users who are neither the stored user nor an existing member are kept |
| AddMembers.CandidateUsersConcat | frontend/src/components/AddMembersForm.jsx:31-35 | the candidates stay in the order the server returned them |
| AddMembers.CandidateOptions | frontend/src/components/AddMembersForm.jsx:31-39 | one option per candidate, in order |
| AddMembers.OfferedIdsAreNewMembers | frontend/src/components/AddMembersForm.jsx:28-39 | every offered option parses back to the id of a fetched user who is neither a member nor the stored user |
| AddMembers.AddLabel | frontend/src/components/AddMembersForm.jsx:189-191 | "Ajout en cours..." while adding; otherwise "Ajouter " and the count, read back by `parseInt`, ending in "s" exactly when the count is not 1 |
| AddMembers.AddButtonLabelAgrees | frontend/src/components/AddMembersForm.jsx:186-191 | a button disabled for lack of a selection reads "Ajouter 0 membres"; an enabled one names the positive count a click submits |
| AddMembers.AddMembersForm.constructor | frontend/src/components/AddMembersForm.jsx:8-13 | collapsed, no options, no selection, idle |
| AddMembers.AddMembersForm.Expand | frontend/src/components/AddMembersForm.jsx:98 | the form expands |
| AddMembers.AddMembersForm.BeginFetch | frontend/src/components/AddMembersForm.jsx:20-23 | nothing happens while collapsed; otherwise loading starts |
| AddMembers.AddMembersForm.FinishFetch | frontend/src/components/AddMembersForm.jsx:24-46 | a fetched list becomes `CandidateOptions`; a failure keeps the old options; loading ends |
| AddMembers.AddMembersForm.SelectionChanged | frontend/src/components/AddMembersForm.jsx:54-56 | the selection is stored |
| AddMembers.AddMembersForm.BeginAdd | frontend/src/components/AddMembersForm.jsx:59-65 | a no-op with nothing selected; otherwise the selected values, parsed in order, are submitted; a click on an enabled button always sends, and after sending the button is disabled |
| AddMembers.AddMembersForm.FinishAdd | frontend/src/components/AddMembersForm.jsx:66-85 | success clears the selection, collapses the form and notifies the parent if a callback was given; failure keeps everything; the flag is cleared |
| AddMembers.AddMembersForm.Close | frontend/src/components/AddMembersForm.jsx:89-92 | collapsed with an empty selection |
| Resources.DisplayTitle | frontend/src/screens/Ressources.jsx:249 | the title, or "Resource " followed by text that `parseInt` reads back as the id |
| Resources.DeleteControl | frontend/src/screens/Ressources.jsx:268-297 | a delete control exactly for a teacher on their own resource; the confirm buttons exactly when that row is the one awaiting confirmation |
| Resources.AtMostOneConfirmation | frontend/src/screens/Ressources.jsx:269 | with distinct ids, at most one row asks for confirmation |
| Resources.DeleteResource | frontend/src/screens/Ressources.jsx:139 | no resource with that id is left; every other one stays |
| Resources.DeleteResourceConcat | frontend/src/screens/Ressources.jsx:139 | the remaining resources keep their order |
| Resources.PayloadFor | frontend/src/screens/Ressources.jsx:92-100 | the file is sent when picked and the title only when non-empty |
| Resources.ResourcesPage.constructor | frontend/src/screens/Ressources.jsx:29-35 | no resources, idle, no error, nothing awaiting confirmation, empty title, no file |
| Resources.ResourcesPage.ResourcesFetched | frontend/src/screens/Ressources.jsx:59-68 | the list becomes the fetched one |
| Resources.ResourcesPage.SelectFile | frontend/src/screens/Ressources.jsx:70-74 | an empty pick keeps the previous file |
| Resources.ResourcesPage.SetTitle | frontend/src/screens/Ressources.jsx:76-78 | the title takes the typed value |
| Resources.ResourcesPage.BeginUpload | frontend/src/screens/Ressources.jsx:80-100 | neither file nor title sets the error and sends nothing; otherwise the flags are reset and `PayloadFor` is sent |
| Resources.ResourcesPage.FinishUpload | frontend/src/screens/Ressources.jsx:102-126 | success flags it, clears title and file and reloads once; failure sets the error and keeps the form; uploading ends |
| Resources.ResourcesPage.ConfirmDelete | frontend/src/screens/Ressources.jsx:128-130 | that row awaits confirmation |
| Resources.ResourcesPage.CancelDelete | frontend/src/screens/Ressources.jsx:282 | no row awaits confirmation |
| Resources.ResourcesPage.Delete | frontend/src/screens/Ressources.jsx:132-144 | success removes exactly that resource and ends the confirmation; failure changes nothing |
| CreatePost.TextOnlyContent | frontend/src/components/CreatePostForm.jsx:46 | without an image there is something to post exactly when the text has a non-whitespace character |
| CreatePost.SubmitDisabledIff | frontend/src/components/CreatePostForm.jsx:214 | the publish button is disabled exactly while loading or with no image and blank text |
| CreatePost.PickedImageEnablesSubmit | frontend/src/components/CreatePostForm.jsx:192-214 | while the file input is disabled by a picked image, publishing is blocked only by loading; while it is enabled, blank text also blocks it |
| CreatePost.SubmitError | frontend/src/components/CreatePostForm.jsx:64-91 | no error exactly for a status in [200, 300); an out-of-range status gives the generic text; a failure gives its `detail` or the generic text |
| CreatePost.CreatePostFormState.constructor | frontend/src/components/CreatePostForm.jsx:6-12 | empty text, no image, no preview, idle, no error |
| CreatePost.CreatePostFormState.RevokePreview | frontend/src/components/CreatePostForm.jsx:27-29 | the current preview URL, if any, is released once |
| CreatePost.CreatePostFormState.SetContent | frontend/src/components/CreatePostForm.jsx:14-19 | the text takes the typed value |
| CreatePost.CreatePostFormState.ImageChange | frontend/src/components/CreatePostForm.jsx:21-33 | a picked file becomes the image and its URL the preview, the old preview being released, and the file input becomes disabled; an empty pick changes nothing |
| CreatePost.CreatePostFormState.RemoveImage | frontend/src/components/CreatePostForm.jsx:35-41 | no image, no preview, the old preview released, the file input enabled again |
| CreatePost.CreatePostFormState.BeginSubmit | frontend/src/components/CreatePostForm.jsx:43-61 | with nothing to post the error is set and nothing sent; otherwise loading starts, the untrimmed text and the image are sent, and the preview of this submission is remembered |
| CreatePost.CreatePostFormState.FinishSubmit | frontend/src/components/CreatePostForm.jsx:71-94 | success resets text, image and preview, releases the preview captured when the request was sent (not the current one) and then notifies; failure shows `SubmitError` and keeps the form; loading ends |
| CreatePost.CreatePostFormState.Cancel | frontend/src/components/CreatePostForm.jsx:97-110 | text, image, preview and error are reset, the preview released, the file input enabled, and the callback called if given |
| Register.Set | frontend/src/screens/Register.jsx:36-39 | the edited field takes the value and every other field keeps its own |
| Register.ClearError | frontend/src/screens/Register.jsx:41-46 | that field's error goes and every other error stays |
| Register.IsEmsiEmailIffRegex | frontend/src/screens/Register.jsx:91 | the test accepts exactly the strings `^[a-zA-Z0-9._%+-]+@emsi-edu\.ma$` matches |
| Register.EmsiEmailHasNoSpace | frontend/src/screens/Register.jsx:89-93 | an accepted address has no whitespace, so it always passes the required check |
| Register.UsernameRule | frontend/src/screens/Register.jsx:85-87 | a username error exactly when the name is all whitespace |
| Register.EmailRule | frontend/src/screens/Register.jsx:89-93 | "requis" exactly for a blank address; the format error exactly for a non-blank address the pattern rejects; no error exactly when it matches |
| Register.PasswordRules | frontend/src/screens/Register.jsx:99-107 | missing exactly when empty; too short exactly when non-empty and under 6 UTF-16 code units; mismatch exactly when the confirmation differs, whatever the password error |
| Register.PasswordLengthInCodeUnits | frontend/src/screens/Register.jsx:101-103 | three emoji (six code units) pass the length rule, while five ASCII letters are too short |
| Register.AllErrors | frontend/src/screens/Register.jsx:82-111 | the error record holds, field by field, exactly the message of that field's rule |
| Register.ValidIff | frontend/src/screens/Register.jsx:109-110 | valid exactly when the name is not blank, the address matches, a type is chosen, the password has 6 or more UTF-16 code units and the confirmation is equal |
| Register.CheckUsername | frontend/src/screens/Register.jsx:85-87 | the username step yields that field's message |
| Register.CheckEmail | frontend/src/screens/Register.jsx:89-93 | the e-mail step yields that field's message |
| Register.CheckPassword | frontend/src/screens/Register.jsx:99-103 | the password step yields that field's message, with the length measured in UTF-16 code units |
| Register.RegisterForm.constructor | frontend/src/screens/Register.jsx:22-32 | empty fields, no errors, idle |
| Register.RegisterForm.Change | frontend/src/screens/Register.jsx:34-47 | only the edited field changes, and only its error is cleared |
| Register.RegisterForm.SelectChange | frontend/src/screens/Register.jsx:49-61 | only the user type changes, and only its error is cleared |
| Register.RegisterForm.Validate | frontend/src/screens/Register.jsx:82-111 | the errors become `AllErrors` of the form, and the result is true exactly when none fired |
| Register.RegisterForm.BeginSubmit | frontend/src/screens/Register.jsx:113-120 | an invalid form stops with its errors shown; a valid one starts loading |
| LoginForm.Set | frontend/src/components/login-form.jsx:49-52 | the edited field takes the value and the other keeps its own |
| LoginForm.ClearError | frontend/src/components/login-form.jsx:54-59 | that field's error goes and the other stays |
| LoginForm.EmailRule | frontend/src/components/login-form.jsx:77-81 | "Email is required" exactly for the empty string; "Email is invalid" exactly for a non-empty address without a match of `\S+@\S+\.\S+`; no error exactly on a match |
| LoginForm.BlankEmailIsInvalid | frontend/src/components/login-form.jsx:77-81 | a non-empty address of blanks is reported invalid, not missing |
| LoginForm.AllErrors | frontend/src/components/login-form.jsx:73-90 | the error record holds, field by field, exactly the message of that field's rule |
| LoginForm.ValidIff | frontend/src/components/login-form.jsx:88-89 | valid exactly when the address matches and a password was typed |
| LoginForm.FailureToast | frontend/src/components/login-form.jsx:128-133 | the text the failure branch is written to show: the fixed prefix, then the server's message or the generic text; as written it is never built (see `FinishLogin`) |
| LoginForm.LoginFormState.constructor | frontend/src/components/login-form.jsx:35-44 | empty fields, no errors, idle |
| LoginForm.LoginFormState.Change | frontend/src/components/login-form.jsx:47-60 | only the edited field changes, and only its error is cleared |
| LoginForm.LoginFormState.Validate | frontend/src/components/login-form.jsx:73-90 | the errors become `AllErrors` of the form, and the result is true exactly when none fired |
| LoginForm.LoginFormState.BeginSubmit | frontend/src/components/login-form.jsx:92-98 | an invalid form stops; a valid one starts loading and asks whether the address is known |
| LoginForm.LoginFormState.FinishCheck | frontend/src/components/login-form.jsx:101-110 | an unknown address sets that field's error, ends loading and sends no password; a known one goes on to the login request |
| LoginForm.LoginFormState.FinishLogin | frontend/src/components/login-form.jsx:111-136 | loading ends either way and fields and errors are kept; a failure ends in an error escaping the handler, with no toast shown, because `toast` is not imported |
| ForgotPassword.ValidationRule | frontend/src/screens/ForgotPasswordForm.jsx:51-60 | "Email is required" exactly for the empty string; "Email is invalid" exactly for a non-empty address without a match; no message exactly on a match |
| ForgotPassword.ForgotPasswordState.constructor | frontend/src/screens/ForgotPasswordForm.jsx:22-27 | empty address, idle, no messages |
| ForgotPassword.ForgotPasswordState.Change | frontend/src/screens/ForgotPasswordForm.jsx:32-35 | the address takes the typed value and the error is cleared |
| ForgotPassword.ForgotPasswordState.BeginSubmit | frontend/src/screens/ForgotPasswordForm.jsx:63-75 | a failed validation shows its message and sends nothing; otherwise loading starts, the error clears and the address is checked |
| ForgotPassword.ForgotPasswordState.FinishCheck | frontend/src/screens/ForgotPasswordForm.jsx:75-80 | an unknown address is reported and loading ends; a known one goes on to the reset request |
| ForgotPassword.ForgotPasswordState.FinishReset | frontend/src/screens/ForgotPasswordForm.jsx:90-104 | success shows the server's message or the default and clears the address; a refusal or a thrown error shows the server's message or its own default; loading ends |

## Left out

- Network, `localStorage`, timers (`setTimeout`) and React rendering are not modelled directly.
  - A request's outcome is a parameter of the method that handles its answer.
  - A stored value (token, user id, username) is an `Option` parameter.
  - A timer is an entry of `ChatSession.timers` that the environment fires with `OnReconnectTimer`.
- Hashing and mail are not modelled:
  - the SHA-512 token digest, `make_password` and its salt, `check_password` (a parameter of `Views.Login`), `send_mail` and the mail template;
  - JWT creation (`RefreshToken.for_user` is reduced to the user the token is issued for) and `parseJwt`.
- Date formatting with date-fns, `toLocaleTimeString`, `Date.now()` and `Math.random()` ids: ids and timestamps are parameters.
- `URL.createObjectURL` and `FileReader`: an object URL is an opaque string parameter.
- Chat.ChatSession: the screen holds one socket state. Events of a socket the effect has already replaced act on the current state. A timer keeps the peer and counter its closure captured. The other handlers read the current peer and counter; for `onclose` these are the captured ones, because the effect re-creates the handlers whenever either changes.
- Chat: fetching the user list, auto-scroll, `handleKeyDown` and the JSON framing of the payload are not modelled.
- Common.Prefix: `substring` counts UTF-16 code units and the model counts characters. They differ only when the text starts with a character outside the Basic Multilingual Plane, where `substring` can cut a surrogate pair in half; a lone surrogate is not a Dafny `char` value.
- Group.AvatarFallback: built on `Common.Prefix`, so a group name starting with such a character is shortened by characters, not code units.
- Common.Lower: `toLowerCase` is modelled on ASCII letters only; other letters are left unchanged.
- Common.Upper: `toUpperCase` is modelled on ASCII letters only; other letters are left unchanged.
- Common.ParseInt: hexadecimal prefixes, fractions and exponents of `parseInt`/`Number` are not modelled. Only ids written by `String(n)` are parsed.
- Views.Database.PatchUser: only the username, e-mail and role fields are modelled. The password and profile-picture fields are left out, and the serializer's other validators are the parameter `otherFieldsValid`.
- Views.Database.ForgotPassword: of the token serializer's validators only the 255-character limit is modelled; the error text joins just that one message.
- Remaining views and the registration serializer (`RegistrationView`, `checkUserView`, the post, user-list and user-post views), the channels consumer and the JWT middleware are not part of this model.
- Frontend requests modelled only through their outcome:
  - the `checkUser`/register requests and navigation of `Register.jsx`;
  - the login request, token storage and delayed navigation of `login-form.jsx`;
  - PostCard's comment submission and post deletion;
  - GroupManager's `openDialog`, `handleChange` and `handleSubmit`;
  - the axios token-refresh interceptor.
- Resources.ResourcesPage.Delete: `handleDelete` filters the list its closure captured, not the latest list; the model filters the current list. The two agree unless the list changed while the request was in flight.
- Reports.jsx and the other rendering-only screens (NavBar, SideBar, Profile, Home and similar) are not part of this model.
