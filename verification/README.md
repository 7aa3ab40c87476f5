# A model of Li&Chat

Li&Chat is a chat server: users who are friends exchange direct messages, groups hold up to 200 members, messages can
be forwarded, hidden, edited, withdrawn, starred and reacted to, polls are taken in groups, and two users can call each
other. This project models the server's state and proves what it keeps: over single calls, over every run of calls,
and, for the call protocol, over every interleaving of its handlers.

`dafny verify dfyconfig.toml` checks all of it.

## How the model is laid out

- **The tables.** `Store` holds the tables as one value `Db`, with the invariant `Inv`. `Friends`, `Groups` and
  `Messages` give every service call as a function from a state and its arguments to a new state and an answer, with
  the error branches in the order of the source. `MessagesInv` and the lemmas beside those functions prove that each
  call keeps `Inv`; `Runs` puts the calls together and proves `Inv` in every reachable state; `Guarantees` draws the
  conclusions about ownership, cursors, references and messages.
- **The rules and the effects.** `Permissions` says who may make which call in terms of the tables alone, without the
  functions that check it, and proves that a call succeeds exactly if the rules allow it, that a refused one changes
  nothing, and which status it gets. `Effects` says row by row what a successful call changes and which tables it
  leaves alone. `Lifetimes` draws the conclusions for whole runs: who wrote what is stored, what is frozen, and what
  changes only by its owner's calls.
- **The tables in place.** `Database.Tables` is a class whose fields are the tables and whose methods change them step
  by step, with the loops and the delete order of the source. Every method is proved to be one step of the function
  above it. Its method `Serve` takes any call and is proved to be one step of `Runs.Apply`, and `ServeAll` to end where
  `Runs.Run` ends, so whatever is proved about calls and runs holds of the methods.
- **What users see.** `Paging`, `History` and `Files` are the cursor-following readers, `Summaries` the conversation list
  by its fast route against a plain scan of each conversation, `Delivery` what each write does to everybody's view,
  `MutedForward` one run in full, `Tally` the poll payload. The loops of the source are methods with invariants; they
  read one state, which is what a single call sees.
- **The reaction index** (`ReactionIndex`): the server's set of triples, its aggregation, and the browser's incremental
  counts.
- **Calls**: `Calls` (each frame one step), `CallServer` (the dictionaries and the log changed in place) and
  `CallsAwait` (handlers interleaved at every `await`).
- **Windows over time**: `RateLimit`, `Throttle`, `Manager` (with the connection table) and `Replay`. Each keeps a ghost
  record that is never pruned, and its answers are proved to be those of that record.

## What is assumed

- A service call is one atomic step, except in `CallsAwait`.
- New message, group, poll and log ids are larger than all earlier ones.
- A user's subject identifier holds no ':', and so is never a group's sentinel.
- Clocks do not run backwards; times are exact reals. Between two deliveries of a logout token the wall clock advances
  at least as fast as the monotonic one.
- A role in a request is admin or member (`RoleIn`, app/api/groups.py:160); anything else is refused with 422.
- Callers are signed in: an unknown caller changes nothing except by signing in, which stores the user.

## What the proofs found

- A page size of 0 ends a walk at once with nothing; a walk that ended is complete if and only if the size was
  positive or there was nothing to list. The API admits sizes from 1 on.
- A hang-up that arrives while the row of its call is still being written leaves a log id without a call. If the id of
  the pair's next row is then stored over it, the earlier row stays open for ever. A run ends with an open row that
  nobody can close if and only if some `set_log_id` in it hits an occupied slot. When all writes are done, the invariant
  of the atomic protocol holds if and only if that never happened and every `set_log_id` that came too late for its call
  was followed by a hang-up or a ringing offer of the pair.
- The dictionaries and the writes under way agree throughout a run if and only if no hang-up in it overtakes the write
  of its call's row.
- The status that closes a row can be overwritten by an answer whose write is still under way, and only by that; a
  rejected call can so be filed as accepted.
- A logout token can be used twice if and only if it was issued at least 60 whole seconds in the future. The decoder
  refuses such tokens; that check is not part of this model.
- The limiter's sweep never drops a key, because with a positive limit no stored bucket is empty. With a limit of 0 the
  first call already raises an index error.
- The throttles' sweep is harmless only while the interval stays the same; the lemma gives the exact condition.
- A muted member can still add messages to a group: a call of theirs does so if and only if it is an admissible forward
  into it, and any message of the group that is neither withdrawn nor a poll will do. A run from empty tables that ends
  in such a forward is given.
- A message out of the caller's sight is answered exactly like a missing one, by every call that names a message but a
  direct read, which asks for the friendship first.
- Were `dissolve_group` to delete messages before reactions, it would delete no reaction.
- The capacity check of `create_group` cannot fail, because at most 20 users can be invited with it.

## Model

| member | source | states |
|---|---|---|
| Prelude.LessIsStrictTotal | app/messages/service.py:39-40 | The string order behind `a < b` is total and strict, so of two different users exactly one comes first |
| Prelude.PairKeyIdentifiesPair | app/messages/service.py:39-40 | Both orders of two users give one pair key, and no other pair gives it |
| Prelude.DecimalRoundTrip | app/messages/service.py:320-323 | Reading back the text of a group id gives the id |
| Prelude.DecimalInjective | app/groups/service.py:339-344 | Two groups never share a settings key |
| Text.Strip | app/polls/service.py:21-30 | A stripped text is no longer than the original and neither starts nor ends with white space |
| Text.StripCutsSpaceOnly | app/polls/service.py:21-30 | Stripping takes white space off both ends and nothing else |
| Text.SplitKey | app/messages/service.py:311-318 | Splitting at the first ':' puts the key back together and leaves no ':' in the first part; it fails only if there is none |
| Text.SplitsAtFirst | app/messages/service.py:311-318 | A key built from a first part without ':' splits into exactly its two parts |
| Text.DmKeyIdentifiesPair | app/messages/service.py:43-45 | Two pairs of users never share a conversation-settings key |
| RateLimit.SlidingWindowRateLimiter.constructor | app/sso/ratelimit.py:10-13 | A new limiter has admitted nobody and satisfies the invariant that ties buckets to the full admission log |
| RateLimit.SlidingWindowRateLimiter.Check | app/sso/ratelimit.py:15-26 | With a limit of at least 1 a call is admitted if and only if fewer than `limit` admissions of its key lie in the closed window [now - window, now] of a log that is never pruned; a refusal names the least sufficient wait; with a limit of 0 or less every call raises the index error of `bucket[0]`; the sweep drops no key |
| RateLimit.SlidingWindowRateLimiter.Admit | app/sso/ratelimit.py:23-26 | Storing an admission and sweeping keep the tie to the full admission log and drop no key |
| RateLimit.PopExpired | app/sso/ratelimit.py:18-19 | The popleft loop leaves a suffix of the admission log whose first entry is inside the window |
| RateLimit.Decision | app/sso/ratelimit.py:15-23 | The length of the pruned bucket is the number of admissions inside the window, so testing it decides as the unpruned log would |
| RateLimit.AtMostLimitPerWindow | app/sso/ratelimit.py:15-26 | Whatever instant x, at most `limit` admissions of a key lie in [x, x + window] |
| RateLimit.SlidingWindowRateLimiter.NeverMoreThanLimit | app/sso/ratelimit.py:15-26 | A limiter never admits more than `limit` calls of a key in any closed interval of the window's length |
| RateLimit.LaterWindow | app/sso/ratelimit.py:18-22 | A key left alone is admitted again at a later instant if and only if its oldest admission has left the window by then |
| RateLimit.RetryAfterIsLeast | app/sso/ratelimit.py:20-22 | `retry_after` is at least 1, suffices, and every smaller whole number of seconds is still refused (delay-seconds of section 10.2.3 of RFC 9110) |
| RateLimit.SweepForgetsNothing | app/sso/ratelimit.py:24-25 | While no stored bucket is empty the 10 000-key sweep is the identity |
| Throttle.NextKeepsForgets | app/ws/manager.py:30-42 | One call keeps the relation "swept table = unswept table minus slots too old to matter" and gets the same answer from both |
| Throttle.SweepChangesNoAnswer | app/ws/calls.py:59-72 | Over any run of calls the swept table answers every call as a table that is never swept |
| Throttle.SlotDelaysKey | app/ws/calls.py:63-64 | A call allowed after a slot was taken comes at least the interval later |
| Throttle.AllowedCallsAreSpaced | app/ws/manager.py:27-42 | Two allowed calls of one key are at least `min_interval` apart in any run, sweeps included |
| Throttle.RefusedIffAllowedRecently | app/ws/manager.py:27-42 | In any run from an empty table, sweeps included, a call is refused if and only if a call of its key was allowed less than `min_interval` before |
| Throttle.SweepMattersForLongerInterval | app/ws/manager.py:36-41 | With a changed interval the sweep alters a later answer if and only if the slot was too old for the short interval and still too young for the long one |
| Manager.ConnectionManager.constructor | app/ws/manager.py:16-19 | A new manager has no connection, no session and no slot |
| Manager.ConnectionManager.TypingAllowed | app/ws/manager.py:27-42 | A typing event is refused if and only if the latest allowed one of that sender and target, in a record that is never swept, is less than the interval ago |
| Manager.ConnectionManager.Has | app/ws/manager.py:21-22 | A user is online if and only if there is an open socket of theirs, which is the case if and only if they are listed at all |
| Manager.ConnectionManager.Connect | app/ws/manager.py:44-49 | Adds one socket to one user, and records its session if there is one |
| Manager.ConnectionManager.Disconnect | app/ws/manager.py:51-58 | Removes one socket of one user with its session, drops a user without sockets, and keeps every recorded session that of an open socket |
| Manager.ConnectionManager.DisconnectSub | app/ws/manager.py:60-64 | Closes all sockets of a user, each exactly once, forgets their sessions, and touches nobody else's |
| Manager.ConnectionManager.CloseAll | app/ws/manager.py:62-64 | Closes each socket once and forgets exactly those sessions |
| Manager.ConnectionManager.DisconnectSession | app/ws/manager.py:66-82 | Closes exactly those sockets of the user that carry the session, each once |
| Replay.MemoryReplayCache.constructor | app/sso/replay.py:18-20 | A new cache has seen nothing |
| Replay.MemoryReplayCache.CheckAndAdd | app/sso/replay.py:22-27 | A jti is a replay if and only if its deadline in a table that is never pruned lies in the future; otherwise its deadline becomes now + ttl |
| Replay.MemoryReplayCache.Prune | app/sso/replay.py:29-33 | Removes exactly the entries whose deadline has come |
| Replay.ExpiryOutlivesFreshness | app/main.py:226-228 | When the cache entry of a use has expired after skew + 60 seconds, the freshness check already rejects the token |
| Replay.ProcessKeepsSpent | app/sso/routes.py:316-318 | No delivery, of whichever token, un-spends a used token; a second delivery of the token does not log out |
| Replay.TokenUsedAtMostOnce | app/sso/routes.py:302-338 | Over any run one token deletes sessions at most once, given its `iat` is less than 60 s ahead of its first use (section 2.6 of OpenID Connect Back-Channel Logout 1.0) |
| Replay.SecondUseIff | app/oidc/tokens.py:61-66 | A used token can be used again later if and only if its `iat` was at least 60 whole seconds ahead of the clock at its first use |
| Replay.LogoutSignsOut | app/sso/routes.py:302-338 | A delivery is rejected exactly if the token is stale or lacks a claim, ignored only while the jti's entry is unexpired, and otherwise deletes exactly the user's sessions with the session id, or all of the user's if none matches; an entry for skew + 60 seconds is left |
| Replay.LogoutEndpoint.constructor | app/main.py:226-228 | The endpoint's cache keeps entries for skew + 60 seconds |
| Replay.LogoutEndpoint.ProcessLogoutToken | app/sso/routes.py:302-338 | The in-place endpoint is one step of the reference. After a logout the user's sessions with the token's session id are gone if there was one, otherwise all of the user's sessions; nobody else's is, and any other outcome deletes none. A logout closes all of the user's sockets and nobody else's, any other outcome closes none |
| Calls.InSyncIsBijection | app/ws/calls.py:21-24 | Under the invariant, open log rows and active pairs correspond one to one through the log ids |
| Calls.NoticesReachTheRightUser | app/ws/calls.py:75-159 | At most one thing is sent. A frame is relayed, to its target alone, if and only if it is an offer to an online user in an idle pair, an answer to a ringing pair, a reject or end, or a candidate of an active pair 10 ms after the last; error, unavailable, busy and invalid go to the sender alone, each exactly under its condition |
| Calls.OfferWritesRow | app/ws/calls.py:107-124 | Only an admissible offer adds a row: caller, callee and kind as in the frame (audio by default), open if the offer rings, a missed call otherwise |
| Calls.EveryRowIsACall | app/ws/calls.py:162-180 | After any run every row stems from an offer of the run and names its sender, its target and its kind |
| Calls.CandidatesAreSpaced | app/ws/calls.py:59-72 | Over any run two ICE candidates of a pair that are relayed are at least 10 ms apart |
| Calls.HandleKeepsSync | app/ws/calls.py:107-150 | Every frame keeps the correspondence of open log rows and active pairs |
| Calls.RunKeepsSync | app/ws/calls.py:107-150 | The correspondence holds after any run of frames |
| Calls.HandleKeepsRows | app/ws/calls.py:162-192 | A frame never removes a log row, never changes its caller, callee or kind, and never touches a closed row |
| Calls.OpenRowTracksPair | app/ws/calls.py:120-133 | While a row is open its pair is active; the pair is connected and the row marked accepted if and only if an answer of the pair succeeded since the offer |
| Calls.ClosingStep | app/ws/calls.py:139-150 | An open row is closed only by a reject or an end of its own pair |
| Calls.ClosedStatusFixedByTrace | app/ws/calls.py:139-150 | In the final log a closed row is rejected iff a reject closed it, otherwise accepted iff an answer succeeded between offer and end, otherwise missed |
| Calls.ClosedRowHasHistory | app/ws/calls.py:107-123 | Every closed row is a missed call, written at once by an offer that could not ring, or was opened by an offer and closed later; every open row stems from an offer that rang |
| CallServer.CallLog.constructor | app/ws/calls.py:162-180 | The log starts empty |
| CallServer.CallLog.Record | app/ws/calls.py:162-180 | Appends one row and returns its id |
| CallServer.CallLog.Update | app/ws/calls.py:183-192 | Sets the status of one row, and its end if asked; an unknown id changes nothing |
| CallServer.CallManager.constructor | app/ws/calls.py:21-24 | No call, no slot, no log id |
| CallServer.CallManager.Offer | app/ws/calls.py:33-38 | Succeeds iff the pair is idle, and then the pair rings |
| CallServer.CallManager.Answer | app/ws/calls.py:40-45 | Succeeds iff the pair rings, and then it is connected |
| CallServer.CallManager.Close | app/ws/calls.py:140-145 | Clears the pair's call and log id and reports whether it was connected and which row it had |
| CallServer.CallManager.IceAllowed | app/ws/calls.py:59-72 | The ICE throttle is one step of the throttle model |
| CallServer.Server.constructor | app/ws/calls.py:21-24 | An idle server |
| CallServer.Server.HandleCall | app/ws/calls.py:75-159 | The in-place handler does exactly one step of `Calls.Handle` and keeps the correspondence of rows and pairs; what gets through is sent to the target, every notice of an error to the sender |
| CallsAwait.OwnershipMoves | app/ws/calls.py:115-150 | A log row is born with one party able to close it, and every step only hands that right on |
| CallsAwait.StepKeepsSafe | app/ws/calls.py:115-150 | At any interleaving no two parties can close one row |
| CallsAwait.RowClosedAtMostOnce | app/ws/calls.py:143-150 | With handlers interleaved at every await, each log row is closed at most once |
| CallsAwait.HangUpSeparatesCalls | app/ws/calls.py:33-57 | At any interleaving, between two successful offers of a pair, and between two successful answers, somebody hung up |
| CallsAwait.OfferAnsweredAtMostOnce | app/ws/calls.py:40-45 | At any interleaving a second successful answer of a pair has an offer of its own before it |
| CallsAwait.HangUpDecidesStatus | app/ws/calls.py:134-150 | At any interleaving the write that a hang-up starts closes the row on file for the pair, as rejected by a reject, otherwise as accepted if and only if the pair's last answer came after its last hang-up, else as missed |
| CallsAwait.TalkingMeansAnswered | app/ws/calls.py:40-45 | A pair is connected if and only if its last answer came after its last hang-up |
| CallsAwait.RowsAreCalls | app/ws/calls.py:162-180 | At any interleaving every row says who called whom and how, as some offer of the run did |
| CallsAwait.EveryOfferIsWrittenOnce | app/ws/calls.py:107-123 | At any interleaving the rows written and those still being written are together as many as the offers: no call is lost or written twice |
| CallsAwait.TidyStepIff | app/ws/calls.py:120-123 | A step keeps "active iff on file or about to be" for every pair if and only if it is not a reject or end that overtakes the write of its call's row |
| CallsAwait.TidyThroughoutIff | app/ws/calls.py:115-150 | A run keeps that property throughout if and only if no hang-up in it overtakes a pending row |
| CallsAwait.TidyRunsSettleInSync | app/ws/calls.py:115-150 | Without such an overtaking, an interleaved run satisfies the invariant of the atomic protocol whenever all writes are done |
| CallsAwait.UnownedRowNeverCloses | app/ws/calls.py:143-150 | A row that nobody can close stays open for ever |
| CallsAwait.CutOfferLeavesStaleId | app/ws/calls.py:122-123 | An end that overtakes the row of its offer leaves a log id without a call |
| CallsAwait.OrphanedRowReachable | app/ws/calls.py:122-123 | A second offer's id then overwrites the stale one, and a row stays open that nobody can close |
| CallsAwait.OverwriteOrphans | app/ws/calls.py:50-51 | Storing a log id on an occupied slot takes the only owner from an open row |
| CallsAwait.OpenRowsOwnedIff | app/ws/calls.py:50-51 | A run ends with every open row owned by somebody who can close it if and only if no log id was stored on an occupied slot in it |
| CallsAwait.OpenRowsOwnedThroughoutIff | app/ws/calls.py:115-150 | The same for every state of the run |
| CallsAwait.SettledInSyncIff | app/ws/calls.py:115-150 | When all writes of a run are done, rows and pairs correspond as in the atomic protocol if and only if every log id was stored on a free slot and each one stored after its call was over was followed by a hang-up or a ringing offer of the pair |
| CallsAwait.ClosingStatusStaysIff | app/ws/calls.py:183-192 | The status that closes a row survives every continuation if and only if no answer's write for it is under way or the status is "accepted" |
| CallsAwait.RejectedCallFiledAsAccepted | app/ws/calls.py:131-150 | A run in which a rejected call ends up on file as accepted |
| Store.ConversationsAreApart | app/messages/service.py:608-613 | The participant columns of two users find exactly the direct messages from one of them to the other |
| Store.MarkerIsNoSub | app/messages/service.py:608-613 | A group's sentinel contains a ':' and so is no user |
| Friends.PairRowIsUnique | app/friends/service.py:28-38 | There is at most one row per unordered pair, so the lookup does not depend on who asks |
| Friends.RequestLifeCycle | app/friends/service.py:73-172 | A request makes nobody friends, only its addressee can accept it, accepting makes both friends of each other and keeps the reason, and refusing or removing it restores the state before it |
| Friends.SendRequestKeepsInv | app/friends/service.py:73-105 | A request keeps at most one row per pair, none with oneself or a stranger, and the rest of the invariant |
| Friends.AcceptRequestKeepsInv | app/friends/service.py:156-164 | Accepting keeps the invariant |
| Friends.RejectRequestKeepsInv | app/friends/service.py:167-172 | Rejecting keeps the invariant |
| Friends.RemoveRelationshipKeepsInv | app/friends/service.py:230-238 | Unfriending keeps the invariant |
| Groups.InviteesAreFriends | app/groups/service.py:127-131 | The invitee checks pass if and only if everybody invited is a user and a friend of the inviter |
| Groups.EnrolGrows | app/groups/service.py:191-193 | The members afterwards are those before and the invitees, and no other group gains any |
| Groups.RankDecides | app/groups/service.py:201-259 | A member is removed exactly by a member of higher rank, muted exactly by one as a plain member, and given another role exactly by the owner |
| Groups.OwnerLeavesAfterTransfer | app/groups/service.py:262-299 | An owner cannot leave, and can right after a transfer to somebody else |
| Groups.CreateGroupKeepsInv | app/groups/service.py:116-141 | A new group has one owner and at most 200 members, and the invariant is kept |
| Groups.AddMembersKeepsInv | app/groups/service.py:174-198 | Inviting keeps roles, the capacity of 200 and the rest of the invariant |
| Groups.RemoveMemberKeepsInv | app/groups/service.py:201-227 | Removing a member keeps one owner and leaves no cursor of a non-member |
| Groups.SetMemberRoleKeepsInv | app/groups/service.py:230-244 | A role change keeps exactly one owner |
| Groups.SetMemberMuteKeepsInv | app/groups/service.py:247-259 | Muting keeps the invariant |
| Groups.LeaveGroupKeepsInv | app/groups/service.py:262-281 | Leaving keeps one owner and leaves no cursor of a non-member |
| Groups.RolesMove | app/groups/service.py:294-298 | Demoting the old owner's row and then promoting the target's keeps one owner equal to `owner_sub`, also when both are one row |
| Groups.TransferKeepsInv | app/groups/service.py:284-299 | Transfer keeps the invariant |
| Groups.DissolveKeepsInv | app/groups/service.py:315-347 | The cascade keeps the invariant: no dangling reference is left |
| Groups.WithoutGroupLeavesNoTrace | app/groups/service.py:329-345 | After the cascade no row of the cleared tables names the group or a message or poll of it |
| Groups.WithoutGroupKeepsRest | app/groups/service.py:329-345 | Every row of direct conversations, other groups and users is as before |
| Groups.WithoutGroupKeepsSettings | app/groups/service.py:339-344 | Settings of direct conversations and of every other group are as before |
| Groups.DissolveRemovesExactlyGroup | app/groups/service.py:315-347 | A successful dissolve removes exactly the group: no trace of it, everything else untouched, nothing new |
| Groups.MessagesFirstKeepsReactions | app/groups/service.py:334-336 | Were the messages deleted first, the cascade would remove no reaction at all: the delete order matters |
| MessagesInv.PostDmKeepsInv | app/messages/service.py:217-232 | Storing a fitting direct message with mentions and the sender's cursor keeps the invariant |
| MessagesInv.PostGroupKeepsInv | app/messages/service.py:608-636 | The same for a group message |
| MessagesInv.SendDmKeepsInv | app/messages/service.py:189-235 | Sending directly keeps the invariant: {sender, recipient} = {lo, hi}, replies stay in the conversation, the sender's cursor covers the message |
| MessagesInv.SendGroupKeepsInv | app/messages/service.py:570-639 | Sending to a group keeps the invariant: the group sentinel, the reply's group, the poll's group |
| MessagesInv.ForwardKeepsInv | app/messages/service.py:834-903 | Forwarding keeps the invariant, from any conversation into any other |
| MessagesInv.CleanOptionsAreClean | app/polls/service.py:27-47 | Cleaned options are pairwise different, 1 to 60 characters long, and every option handed in is among them once stripped |
| MessagesInv.NewPollKeepsInv | app/polls/service.py:50-71 | A new poll keeps the invariant and belongs to its group |
| MessagesInv.MarkReadKeepsInv | app/messages/service.py:1031-1052 | A DM cursor always names a message of its own pair |
| MessagesInv.MarkGroupReadKeepsInv | app/messages/service.py:809-823 | A group cursor always belongs to a member and names a message of the group |
| MessagesInv.HideKeepsInv | app/messages/service.py:779-806 | Hiding keeps the invariant |
| MessagesInv.EditKeepsInv | app/messages/service.py:1071-1133 | Editing and withdrawing keep the invariant |
| MessagesInv.ReactKeepsInv | app/messages/service.py:1173-1183 | A reaction always belongs to a stored message |
| MessagesInv.StarKeepsInv | app/messages/service.py:922-935 | A star always belongs to a stored message |
| MessagesInv.VoteKeepsInv | app/polls/service.py:111-144 | A stored vote is a non-empty set of valid indexes of a stored poll, a single one unless several are allowed |
| MessagesInv.ClosePollKeepsInv | app/polls/service.py:147-159 | Closing keeps the invariant |
| MessagesInv.SettingKeepsInv | app/messages/service.py:296-344 | Settings keep the invariant |
| Runs.ApplyKeepsInv | app/messages/service.py:189-1133 | Every service call, successful or refused, keeps the whole invariant |
| Runs.RunKeepsInv | app/messages/service.py:189-1133 | The invariant holds in every state that any run of calls reaches from empty tables |
| Permissions.SucceedsIffAllowed | app/messages/service.py:189-1212 | In every state with the invariant a call succeeds if and only if the rules over the tables (`MayCall`) allow it; a refused call changes nothing and answers with the status of the first rule it breaks |
| Permissions.OutOfSightLooksMissing | app/messages/service.py:779-1204 | Every call about a message out of the caller's sight, a direct read aside, is answered with 404 like one about a missing message, and changes nothing |
| Permissions.SendObeys | app/messages/service.py:189-216 | A direct message is stored if and only if the recipient is another user and an accepted friend, it is no poll, a reply answers a message between the two, at most 50 mentions name only the recipient, and an attachment is an upload of the sender |
| Permissions.SendToObeys | app/messages/service.py:570-601 | A group message is stored if and only if the sender is a member who is not muted, a reply answers a message of the group, at most 50 mentions name members, and it carries nothing, an own upload, or a proper poll |
| Permissions.ForwardObeys | app/messages/service.py:834-886 | A message is forwarded if and only if the caller takes part in its conversation, it is neither withdrawn nor a poll, and the target is a group of the caller or an accepted friend; a message out of sight is answered like a missing one |
| Permissions.RewritingObeys | app/messages/service.py:1055-1133 | Only the sender edits or withdraws a message, only while it is not withdrawn and at most 300 seconds old; 404, 403 and 409 in that order |
| Permissions.HideObeys | app/messages/service.py:779-806 | A message is hidden if and only if it is in the conversation named and the caller takes part in that |
| Permissions.ReactObeys | app/messages/service.py:1149-1204 | The same for a reaction, if the message is not withdrawn |
| Permissions.StarObeys | app/messages/service.py:922-935 | A message is starred if and only if the caller takes part in its conversation |
| Permissions.ReadingObeys | app/messages/service.py:1031-1052 | A cursor moves only for an accepted friend, or a member, and to a message of that conversation |
| Permissions.VoteObeys | app/polls/service.py:111-144 | A vote counts if and only if the poll is one of the group, the voter a member, the poll open, and the choice non-empty, in range and single unless several are allowed |
| Permissions.CloseObeys | app/polls/service.py:147-159 | A poll is closed if and only if a member asks who created it, is an admin or owns the group |
| Permissions.PollRule | app/polls/service.py:20-47 | A poll is accepted if and only if its stripped question has 1 to 120 characters and there are 2 to 10 different stripped options of 1 to 60 |
| Permissions.ConfigureObeys | app/messages/service.py:296-323 | A setting is stored if and only if some flag is given and the key is the canonical key of a direct conversation of the caller or the number of a group they are in |
| Permissions.FriendCallsObey | app/friends/service.py:73-238 | A request is stored if and only if the other is a user, the reason at most 200 characters and no row of the pair exists; only the addressee of a pending one answers it |
| Permissions.CreateObeys | app/groups/service.py:116-133 | A group is created if and only if its stripped name has 1 to 64 characters and at most 20 others are invited, all of them accepted friends |
| Permissions.InviteObeys | app/groups/service.py:174-190 | Members are added if and only if the owner or an admin invites at most 20 accepted friends and the group then has at most 200 members |
| Permissions.RemoveObeys | app/groups/service.py:201-213 | The owner removes anybody else and an admin plain members, nobody else anybody |
| Permissions.SetRoleObeys | app/groups/service.py:230-243 | Only the owner of the group, as its row says, gives another member another role |
| Permissions.MuteObeys | app/groups/service.py:247-258 | The owner and admins mute plain members, nobody else anybody |
| Permissions.TransferObeys | app/groups/service.py:284-299 | Only the owner hands over a group, and only to a member |
| Permissions.GroupEndsObey | app/groups/service.py:262-323 | Only the owner dissolves a group; everybody else, and only they, can leave it |
| Effects.SucceedingCallsDo | app/messages/service.py:189-1212 | Every call that succeeds changes the rows it should, as the effects say row by row, and no table but its own |
| Effects.LeaverIsGone | app/groups/service.py:262-281 | Who leaves is no member any more; their cursor and their setting for the group go, and nothing else does |
| Effects.RemovedIsGone | app/groups/service.py:213-227 | The same for who is removed, while the remover stays |
| Effects.CreateDoes | app/groups/service.py:134-141 | A new group has the stripped name, its creator as owner and the invitees as plain, unmuted members, and nobody else; no other row changes |
| Effects.InviteDoes | app/groups/service.py:191-193 | Exactly the invitees become members, plain and unmuted; whoever was one keeps role and flag |
| Effects.SetRoleDoes | app/groups/service.py:243-244 | The target has the new role and the old mute flag; no other row changes |
| Effects.MuteDoes | app/groups/service.py:258-259 | The target has the flag asked for; no other row changes |
| Effects.TransferDoes | app/groups/service.py:294-299 | The target becomes owner, in the group row and in the member row, the old owner a plain member; flags and name stay, and so does every other row |
| Effects.SendDoes | app/messages/service.py:217-232 | The stored message is the sender's, to the recipient, with the draft's text and reply, the upload's name, size, type and url, and the time of the call; exactly the mentions are added, and the sender's cursor is at the message |
| Effects.SendToDoes | app/messages/service.py:608-639 | The same in a group; a poll is stored open, by the sender, with the stripped question and options and the flag given |
| Effects.CleanedInOrder | app/polls/service.py:27-37 | The stored options stand in the order in which they were first given |
| Effects.ForwardDoes | app/messages/service.py:850-903 | The copy is the forwarder's own new message with content, type and attachment of the source, marked as forwarded |
| Effects.EditDoes | app/messages/service.py:1071-1079 | An edit puts in the new content and the time of the call and leaves everything else as it was |
| Effects.WithdrawDoes | app/messages/service.py:1082-1090 | A withdrawal blanks the content and notes the time; the row stays |
| Effects.ReactDoes | app/messages/service.py:1173-1183 | The reaction is there exactly if it was added; no other changes |
| Effects.VoteDoes | app/polls/service.py:131-142 | The voter's choice is exactly the set of the indexes given, in place of any earlier one; no other vote changes |
| Effects.CloseDoes | app/polls/service.py:156-159 | The poll is closed; nothing else changes |
| Effects.ConfigureDoes | app/messages/service.py:324-336 | Each flag given is stored, each other keeps its value or starts off; no other setting changes |
| Lifetimes.MessagesHaveAllowedAuthors | app/messages/service.py:189-235 | After any run, every stored message was written by a call of its sender that was allowed at that moment, a direct one between accepted friends, a group one by a member |
| Lifetimes.ClosedPollIsFrozen | app/polls/service.py:111-159 | Over any run a closed poll stays closed with the same votes for as long as it is stored |
| Lifetimes.WithdrawnMessageIsFrozen | app/messages/service.py:1055-1212 | Over any run a withdrawn message stays blank, and its reactions stay as they are, for as long as it is stored |
| Lifetimes.PollsNeverReturn | app/polls/service.py:63-71 | A poll that is gone does not come back |
| Lifetimes.OwnRowsChangeByOwnCalls | app/messages/service.py:189-1212 | Over any run without calls of a user, their hidden messages, DM cursors and DM settings stay as they are, and so do their messages, stars, reactions and votes for as long as what these are about is stored |
| Lifetimes.FriendshipsNeedConsent | app/friends/service.py:156-238 | Two users become friends only when one accepts the pending request of the other, and cease to be only when one of them ends it |
| Lifetimes.MembershipEnds | app/groups/service.py:201-347 | A call ends a membership if and only if it is the leave of a member who is not the owner, a removal by a higher rank, or the dissolve of the owner |
| Guarantees.NoDanglingReferences | app/groups/service.py:329-346 | In every reachable state mentions, reactions, stars, votes, polls, cursors and members name stored rows, and a reply answers an earlier message of its own conversation |
| Guarantees.OneOwnerAndCapacity | app/groups/service.py:116-299 | Every reachable group has exactly one owner row, that of `owner_sub`, and at most 200 members |
| Guarantees.OwnerChangesOnlyByTransfer | app/groups/service.py:284-299 | If any call changes the owner of a group, it is that owner's own transfer, and its target is the new owner |
| Guarantees.GroupsNeverReturn | app/groups/service.py:134-136 | No call makes a group appear but one with the next id |
| Guarantees.GroupStaysGone | app/groups/service.py:134-136 | A group that is gone does not come back over any run of calls |
| Guarantees.MutedMemberOnlyForwards | app/messages/service.py:582-586 | A call of a muted member adds a message to the group if and only if it is a forward into it that passes the checks of forwarding |
| Guarantees.MutedForwardIsAdmissible | app/messages/service.py:842-860 | For a member, muted or not, forwarding a message of the group into the group passes the checks if and only if it is neither withdrawn nor a poll |
| MutedForward.MutedForwardReachable | app/messages/service.py:857-879 | A run from empty tables ends with a muted member whose forward adds a message to the group and whose own message is refused |
| Guarantees.SelfTransferIsIdentity | app/groups/service.py:294-298 | A transfer to oneself changes nothing, although both assignments hit one row |
| Guarantees.SteadyCalls | app/messages/service.py:172-186 | Apart from creating, transferring, dissolving and hiding, every call keeps group and hidden rows, moves DM cursors only forward and keeps messages in place |
| Guarantees.CursorNeverDecreases | app/messages/service.py:172-186 | No call moves a DM cursor back or removes it |
| Guarantees.CursorNeverDecreasesInRun | app/messages/service.py:172-186 | Nor does any run of calls |
| Guarantees.DmCursorsInEveryRun | app/messages/service.py:172-186 | In every reachable state a DM cursor belongs to one of its pair, names a message of the pair, and is at least the id of every message its user sent or forwarded there |
| Guarantees.CallsKeepMessages | app/messages/service.py:779-806 | Only dissolving removes messages, and only that group's; only a caller's own hide hides one, and only from the caller; new messages get an id above all others |
| Paging.DescLists | app/messages/service.py:247-253 | The descending listing holds every id exactly once, in decreasing order |
| Paging.DescIsUnique | app/messages/service.py:247-253 | There is only one such listing |
| Paging.PageCuts | app/messages/service.py:252-260 | Fetching limit + 1 rows returns the first `limit`, and a cursor if and only if there are more |
| Paging.PageSplits | app/messages/service.py:252-260 | A page and what lies below its cursor make up everything below the cursor before |
| Paging.WalkListsAll | app/messages/service.py:238-260 | Following the cursor over a table that only gains larger ids lists what was there at the first page, each id once and decreasing, and ends after one page per `limit` of them |
| Paging.WalkUnderRemovals | app/messages/service.py:238-260 | Over a table that may lose ids between pages, a walk is decreasing, lists only what was there at first, ends in time, and misses nothing that was there all along |
| Paging.EndedWalkIsCompleteIff | app/messages/service.py:257-259 | A walk that ended has listed everything if and only if the page size was positive or there was nothing to list |
| History.OldMessagesStayVisibleIff | app/messages/service.py:238-260 | Over any run of calls nothing old comes into a viewer's sight, and what was in sight stays so if and only if no call succeeded in hiding one of these messages from the viewer or in dissolving the group |
| History.HistoryWalkUnderTraffic | app/messages/service.py:656-680 | Fetching page after page while other calls are served yields every message visible at the first page exactly once, in decreasing id, and reaches a null cursor after as many pages as they need, as long as none of these messages is concealed in between |
| History.HistoryWalkUnderAnyTraffic | app/messages/service.py:238-260 | Whatever is served between the pages: what is fetched was visible at the first page, comes once and in decreasing id, the cursor becomes null after as many pages as those messages need, and then nothing is missing that was visible at every page |
| History.CollectHistory | app/api/users.py:26-50 | The export loop returns exactly the newest min(100 * max_pages, n) visible messages, newest first, and fails only with the 404 of a non-member |
| Files.FileRowsStay | app/messages/service.py:693-704 | As long as a group is there, its file rows stay, whatever calls are served |
| Files.FilesWalkUnderTraffic | app/messages/service.py:683-722 | Fetching page after page of a group's files while other calls are served visits exactly the rows of the first page's table, `limit` a page, and shows each of them if and only if it is live when its page is fetched |
| Files.FilesWalkListsLiveFiles | app/messages/service.py:683-722 | With nothing in between, all pages together are exactly the group's file and audio messages that have an attachment and are not withdrawn, in descending id, although filtering comes after the page and its cursor are chosen |
| History.ReadersAreMembers | app/messages/service.py:725-770 | Readers are members, never more than there are, and who has read a message has read every earlier one |
| History.GroupMessageReaders | app/messages/service.py:725-770 | Succeeds iff the caller is a member and the message is one of the group and not withdrawn; reports exactly the users whose cursor has reached the message, their number, which is at most the number of members, and that number |
| History.ReadersOf | app/messages/service.py:755-769 | Every cursor row yields a reader: the look-up among the users drops nobody |
| Summaries.NewestHeadsHistory | app/messages/service.py:238-260 | The newest visible message heads the first page whatever the page size |
| Summaries.NothingUnreadAfterOwnMessage | app/messages/service.py:230-232 | Right after sending or forwarding into a conversation nothing in it is unread for the sender |
| Summaries.MaxPer | app/messages/service.py:391-413 | The grouped query finds for every key the largest id, and only keys that occur |
| Summaries.ListFriends | app/friends/service.py:175-208 | Every accepted friend exactly once |
| Summaries.NewestPerFriend | app/messages/service.py:388-425 | The maximum per participant pair, looked up by peer, is the head of each friend's history, or nothing if there is none |
| Summaries.CursorsByFriend | app/messages/service.py:365-387 | The cursor table keyed by the other participant gives every friend's cursor, 0 if there is none |
| Summaries.UnreadFromIsUnread | app/messages/service.py:426-446 | Counting the peer's messages above the cursor counts exactly the visible messages not by the viewer |
| Summaries.DmSummaries | app/messages/service.py:360-463 | One entry per accepted friend, each equal to a scan of that conversation: newest visible message, number of unread ones (withdrawn included), cursor, setting |
| Summaries.GroupSummaries | app/messages/service.py:466-560 | One entry per joined group, each equal to a scan of that group, with its number of members |
| Summaries.GroupEntry | app/messages/service.py:511-559 | The entry of one group equals the scan |
| Summaries.DmEntry | app/messages/service.py:426-462 | The entry of one friend equals the scan |
| Summaries.SortListProps | app/messages/service.py:283-292 | Sorting permutes the list; no unpinned entry stands before a pinned one, and among equally pinned ones the newest messages decrease and entries without a message come last |
| Summaries.ConversationSummaries | app/messages/service.py:263-293 | The list holds exactly the friends and joined groups whose archived flag is the one asked for, each once and as a scan shows it; pinned ones first, then by decreasing newest message, those without one last |
| Summaries.EntryInWords | app/messages/service.py:360-560 | An entry's last message is the newest one of the conversation that the viewer has not hidden, its unread number counts those of others above the cursor, and a group's number of members is exact |
| Summaries.ConversationsInWords | app/messages/service.py:360-480 | The conversations of a user are their accepted friends and the groups they are in |
| Summaries.ArchivedListsPartition | app/messages/service.py:281-282 | The archived and the unarchived list together hold every friend and joined group exactly once |
| Delivery.SentMessageArrives | app/messages/service.py:189-235 | A sent message is stored as handed in, mentions whom it should, becomes the newest for both sides, is one more unread for the recipient, and changes no other conversation of anybody |
| Delivery.SentGroupMessageArrives | app/messages/service.py:570-639 | The same for a group message or poll: newest for everybody, one more unread for everybody but the sender, nothing elsewhere |
| Delivery.ForwardedMessageArrives | app/messages/service.py:834-903 | A forwarded copy has the original's content and attachment, no reply and no mention, and arrives like a sent message |
| Delivery.ReadingClearsUpTo | app/messages/service.py:1031-1052 | Reading up to a message clears exactly the unread ones up to it, for the reader in this conversation only |
| Delivery.ReadingGroupClearsUpTo | app/messages/service.py:809-823 | The same in a group |
| Delivery.HidingConcernsHiderOnly | app/messages/service.py:779-806 | Hiding removes exactly that message from the hider's view and nothing from anybody else's |
| Delivery.SettingIsShown | app/messages/service.py:263-344 | What is set for a conversation is what its entry shows; flags not given stay, and so does every other entry of anybody |
| Delivery.SettableConversations | app/messages/service.py:311-323 | With some flag given, a setting succeeds for a direct conversation with anybody else and for a joined group, and for nothing else |
| Delivery.WithdrawnStillCounts | app/messages/service.py:1082-1090 | A withdrawn or edited message stays the newest and stays unread wherever it was |
| ReactionIndex.ReactionsFor | app/messages/service.py:1224-1249 | For every message asked for: exactly the emojis in use with their numbers of users, and the viewer's own |
| ReactionIndex.AddRow | app/messages/service.py:1234-1238 | One more row keeps both dictionaries in agreement with the rows seen |
| ReactionIndex.AbsorbAdd | static/app.js:4344-4355 | An "added" event keeps the message in sync with the server, even if the reaction was there already |
| ReactionIndex.AbsorbRemove | static/app.js:4356-4367 | A "removed" event keeps the message in sync with the server, even if there was nothing to remove |
| ReactionIndex.ClientStaysInSync | static/app.js:4336-4369 | A message that starts in sync stays in sync over any run of reaction calls with their events delivered in order |
| ReactionIndex.EventKeepsAllInSync | static/app.js:4336-4369 | One reaction call with its event keeps every message of the open conversation in sync |
| ReactionIndex.ConversationStaysInSync | static/app.js:4336-4369 | The whole open conversation stays in sync over any run of reaction calls with their events delivered in order |
| ReactionIndex.InSyncMatchesAggregate | app/messages/service.py:1239-1248 | In sync means the same emoji counts and the same own reactions as the server's aggregation |
| ReactionIndex.ClientState.constructor | static/app.js:4336-4340 | The messages of the open conversation |
| ReactionIndex.ClientState.AbsorbEvent | static/app.js:4339-4367 | The in-place changes of one message are the event step |
| ReactionIndex.ClientState.ApplyEvent | static/app.js:4336-4369 | The handler changes only the first message with the event's id, and that one exactly as the event step says; with distinct ids this delivers the event to the whole conversation |
| Tally.CountsAddUp | app/polls/service.py:81-108 | In every reachable poll the displayed counts add up to the total size of the stored votes, and to the number of votes where one option may be chosen |
| Tally.CountsAddUpFor | app/polls/service.py:86-92 | The counts of any voters with valid votes add up to the sizes of their votes |
| Tally.VoteMovesDifference | app/polls/service.py:111-144 | A vote or re-vote moves each option's count by exactly the difference of the new and the old choice, and changes no other row |
| Tally.PollPayload | app/polls/service.py:81-108 | Each option is shown with its index, text and number of voters who chose it, with the number of votes and the viewer's own choice |
| Tally.CountVote | app/polls/service.py:88-92 | One more vote adds one to exactly the chosen options |
| Database.Distinct | app/groups/service.py:120-120 | Drops repeated entries, keeps the set, and keeps the order of first occurrence |
| Database.ValidatePollInput | app/polls/service.py:20-47 | The validating loop accepts exactly the inputs without a poll error and returns the cleaned options |
| Database.Tables.constructor | app/models.py:22-372 | Empty tables |
| Database.Tables.AdvanceRead | app/messages/service.py:172-186 | The cursor becomes the larger of its old value and the id |
| Database.Tables.AdvanceGroupRead | app/messages/service.py:642-653 | The same for a group cursor |
| Database.Tables.AddMessage | app/messages/service.py:228-231 | Adds one row under a fresh id and one mention row per distinct user mentioned |
| Database.Tables.PostDirect | app/messages/service.py:217-232 | Row, mentions and cursor together are one post of the model |
| Database.Tables.PostToGroup | app/messages/service.py:608-636 | The same for a group |
| Database.Tables.FindPairRow | app/friends/service.py:28-38 | The row of the pair, whoever asked |
| Database.Tables.Befriended | app/friends/service.py:241-243 | True exactly for an accepted row of the pair |
| Database.Tables.ValidateReply | app/messages/service.py:94-118 | Refuses exactly the replies whose target is missing or in another conversation |
| Database.Tables.ValidateMentions | app/messages/service.py:121-140 | Refuses exactly too many mentions and mentions outside the conversation |
| Database.Tables.ResolveAttachment | app/messages/service.py:143-169 | The errors of the source in order, or the fields the message is to carry |
| Database.Tables.MayView | app/messages/service.py:826-831 | True exactly for a participant or a member |
| Database.Tables.CheckRole | app/groups/service.py:63-71 | 404 for a stranger, 403 for a member without one of the roles |
| Database.Tables.CheckDm | app/messages/service.py:200-216 | The checks of a direct send, in the order of the source, give the error of the model |
| Database.Tables.SendMessage | app/messages/service.py:189-235 | The in-place send is the model's send, state and answer; a message is stored exactly if `MaySend` holds, friendship included |
| Database.Tables.CheckGroup | app/messages/service.py:582-601 | The checks of a group send, in the order of the source, give the error of the model |
| Database.Tables.SendGroupMessage | app/messages/service.py:570-639 | The in-place group send is the model's, state and answer; a message is stored exactly if `MaySendTo` holds |
| Database.Tables.SendPoll | app/messages/service.py:622-639 | Poll row first, then the message that shows it, is the model's send |
| Database.Tables.AddPoll | app/polls/service.py:50-71 | Adds a poll exactly if the creator is a member and the input is valid |
| Database.Tables.CheckForward | app/messages/service.py:842-886 | The checks before forwarding, in the order of the source, give the error of the model |
| Database.Tables.ForwardMessage | app/messages/service.py:834-903 | The in-place forward is the model's; a copy is stored exactly if `MayForward` holds |
| Database.Tables.MarkDmRead | app/messages/service.py:1031-1052 | The in-place mark is the model's |
| Database.Tables.MarkReadInGroup | app/messages/service.py:809-823 | The in-place mark is the model's |
| Database.Tables.HideForSelf | app/messages/service.py:779-806 | The in-place hide is the model's |
| Database.Tables.CheckEdit | app/messages/service.py:1055-1111 | The checks before editing or withdrawing, in the order of the source, give the error of the model |
| Database.Tables.Edit | app/messages/service.py:1071-1122 | The in-place edit is the model's |
| Database.Tables.Withdraw | app/messages/service.py:1082-1133 | The in-place withdrawal is the model's: the row stays, its content goes |
| Database.Tables.StarMessage | app/messages/service.py:922-935 | The in-place star is the model's |
| Database.Tables.StoreStar | app/messages/service.py:928-934 | Afterwards the star is there exactly if it was asked for, and no other star changes |
| Database.Tables.CheckSetting | app/messages/service.py:311-323 | The key must name a conversation of the caller, in canonical order for a direct one |
| Database.Tables.Configure | app/messages/service.py:296-344 | The in-place setting is the model's: what is not given keeps its value, a missing row starts with all flags off |
| Database.Tables.CheckReaction | app/messages/service.py:1158-1163 | The checks before a reaction, in the order of the source, give the error of the model |
| Database.Tables.ReactTo | app/messages/service.py:1149-1212 | The in-place reaction call is the model's |
| Database.Tables.StoreReaction | app/messages/service.py:1173-1183 | Adding an existing and removing a missing reaction change nothing; otherwise exactly one triple is added or removed |
| Database.Tables.CastVote | app/polls/service.py:111-144 | The in-place vote is the model's |
| Database.Tables.CloseThePoll | app/polls/service.py:147-159 | The in-place close is the model's |
| Database.Tables.CheckInvitees | app/groups/service.py:127-131 | The loop reports the first invitee who is unknown or no friend |
| Database.Tables.AddRows | app/groups/service.py:191-193 | The loop adds a row for exactly those who had none |
| Database.Tables.CreateNewGroup | app/groups/service.py:116-141 | The in-place creation is the model's |
| Database.Tables.AddGroup | app/groups/service.py:134-139 | Group row, owner row and member rows |
| Database.Tables.InviteMembers | app/groups/service.py:174-198 | The in-place invitation is the model's |
| Database.Tables.DeleteMember | app/groups/service.py:214-226 | Exactly the member row, the cursor and the setting of that user for that group go |
| Database.Tables.RemoveFromGroup | app/groups/service.py:201-227 | The in-place removal is the model's; on success exactly the target's member row, cursor and setting are gone |
| Database.Tables.ChangeRole | app/groups/service.py:230-244 | The in-place role change is the model's |
| Database.Tables.MuteMember | app/groups/service.py:247-259 | The in-place mute is the model's |
| Database.Tables.Leave | app/groups/service.py:262-281 | The in-place leave is the model's; on success exactly the caller's member row, cursor and setting are gone |
| Database.Tables.Transfer | app/groups/service.py:284-299 | The two assignments in place, on possibly one row, are the model's transfer |
| Database.Tables.Dissolve | app/groups/service.py:315-347 | The in-place dissolve is the model's |
| Database.Tables.Cascade | app/groups/service.py:329-345 | The ordered deletes, each looking at the tables left by those before it, make up the cascade that removes exactly the group |
| Database.Tables.DeletePolls | app/groups/service.py:330-332 | Votes before the polls they name |
| Database.Tables.DeleteMessages | app/groups/service.py:329-336 | Mentions, reactions and stars before the messages they name |
| Database.Tables.DeleteMembers | app/groups/service.py:337-345 | Cursors, members, settings and the group row |
| Database.Tables.AskFriend | app/friends/service.py:73-105 | The in-place request is the model's |
| Database.Tables.AcceptFriend | app/friends/service.py:156-164 | The in-place acceptance is the model's |
| Database.Tables.RefuseFriend | app/friends/service.py:167-172 | The in-place rejection is the model's |
| Database.Tables.EndFriendship | app/friends/service.py:230-238 | The in-place removal is the model's |
| Database.Tables.ServePerson | app/friends/service.py:73-238 | Calls about friends, uploads and settings are one step of the run model |
| Database.Tables.ServeRole | app/groups/service.py:201-299 | Calls that change or remove a member are one step of the run model |
| Database.Tables.ServeGroup | app/groups/service.py:116-347 | Calls about groups are one step of the run model |
| Database.Tables.ServeMessage | app/messages/service.py:189-1212 | Calls about messages and polls are one step of the run model |
| Database.Tables.Dispatch | app/messages/service.py:189-1212 | Any call, from any state, is one step of the run model |
| Database.Tables.Serve | app/messages/service.py:189-1212 | Any call, from any state, is one step of the run model; from a state with the invariant it keeps it, succeeds exactly if allowed, and changes nothing if refused |
| Database.Tables.ServeAll | app/messages/service.py:189-1212 | Any run of calls served from empty tables ends in the state of the run model, with the invariant |

## Left out

- Database.Tables.Configure: `isdigit` accepts decimal digits of other scripts, and a group key such as "007" is not cleaned on leave; the model has ASCII digits and keeps such keys as the code does.
- Groups.DissolveRemovesExactlyGroup: rows of hidden messages stay, as in the code.
- Manager.ConnectionManager.DisconnectSession: races between closing sockets and new connections; each method is one step.
- Replay.LogoutEndpoint.ProcessLogoutToken: signature, issuer and audience of the token, and the notice to other processes.
- CallServer.Server.HandleCall: measuring the payload, and delivery of what is sent; the size, the friendship and the presence of the target are read once per frame. A call does not end when a socket drops.
- CallsAwait.TidyThroughoutIff: friendship checks and payload limits come before the modelled part of a handler, and ICE frames change nothing there.
- Summaries.ListFriends: the order of friends by last change, which the conversation list sorts away except among empty conversations.
- ReactionIndex.ReactionsFor: the alphabetical order of the emojis and of the viewer's own; a set and a map stand for the sorted lists.
- Tally.PollPayload: the ascending order of the viewer's votes, for which a set stands, and the stored fields that are only copied (question, creator, flags, time).
- ReactionIndex.ClientState.ApplyEvent: drawing the messages, and every other part of the browser's state.
- Database.Tables.AddMessage: attachments are looked up by url among the stored uploads; storing and sniffing files is not modelled.
- Interleaving of database transactions: calls on the tables are atomic.
- Group names, announcements, avatars, remarks, profiles, notifications, search and starred-message lists: they add rows and pages of the same kind and nothing new.
- Payload fields of messages beyond those compared here, HTTP routing, SQL, WebSocket input and output, Redis, sessions' expiry, sign-in and cryptography: plumbing over foreign code.
