# A verified model of the QUE_SERA_SERA client's data handlers

QUE_SERA_SERA is a social network for university students, written as a
React single-page client over a hosted Postgres database (Supabase). Its
behaviour lives in the event handlers of about twenty components: they
query and write the tables (`profiles`, `groups`, `group_members`,
`group_join_requests`, `notifications`, `friends`, `friend_requests`,
`likes`, `posts`, `group_messages`) and keep the component's view state.
The client has no server code of its own, so these handlers are the whole
business logic: sending and deciding friend requests, joining, running
and leaving groups, and the notification inbox with its unread counter.

This Dafny project models those handlers and proves what they do.

- `Tables` holds one record datatype per table and the class `Store`,
  whose fields are the tables. The row edits that `insert`, `update` and
  `delete` perform are functions from a table to the new table.
- `Common` holds the JavaScript and query-builder operations the handlers
  use: `filter`, `find`, `map`, `.single()`, `limit`, `trim`,
  `toLowerCase`, `includes`, and `order('created_at', desc)`. The sort is
  a verified insertion sort on timestamps.
- Each core component is one module.
  - A component becomes a class: its `useState` variables are the fields,
    and its handlers are methods that modify the store's fields and the
    component's own fields, and nothing else.
  - A handler with several awaited steps is specified by a pure function
    of the old tables. The method's `ensures` ties the new tables to that
    function, and lemmas state what the function guarantees.
  - Each awaited call that can fail is one input. A `Failure` datatype
    names the first step that fails, or a `bool` marks a call whose error
    the source ignores. A failing step ends the handler exactly where the
    source's `throw` or `return` would.
- Inputs the client does not compute are parameters: database-generated
  ids (`newId`, or `ids: nat -> Id` for several rows), timestamps
  (`now`), the signed-in user (`Option<Account>`), the file chosen for an
  upload, and the user's answer to a confirmation dialog.

Some properties are proved about the code as written, not as intended.
The notification store's counter is decremented even when it should not
be. `MarkReadItemMiscounts` exhibits a consistent store that `markAsRead`
puts out of step, and `MarkedReadConsistent` and `ClearedConsistent` say
exactly when the counter stays right. Other such properties:

- `GroupChat` never learns a member's id, so its "available users" list
  excludes nobody (`AvailableUsersExcludeNobody`).
- Its secondary-admin branch is dead (`SecondaryAdminBranchUnreachable`).
- The group page writes its join-request text under a `message` key, so
  those notices have an empty `content` (`GroupProfile.JoinNotices`), and
  having no `action` they never offer accept/decline in the notification
  list (`NoCreatedNoticeOffersJoinActions`).
- `GroupChat` reads its member embed as an array, so its secondary-admin
  picker offers only empty values, and assigning them flags no member
  (`SelectionFromListFlagsNobody`).
- The group page's pending check uses `.single()`, so two pending requests
  read as none (`TwoPendingRequestsAreNotFound`).
- The search panel's duplicate check uses `.single()`, which errors on two
  or more matching rows, so two existing requests do not block a third
  (`TwoRequestsDoNotBlock`).

## Model

| member | source | states |
|---|---|---|
| Common.Filter | project/src/store/notificationStore.ts:96 | `filter`: keeps exactly the elements that pass, no more than the input, and each only as often as in the input |
| Common.Find | project/src/store/notificationStore.ts:97 | `find`: none exactly when no element passes; otherwise the first element of the input that passes, every earlier one failing |
| Common.Single | project/src/components/Friends/SearchUsers.tsx:53-57 | `.single()` read as data: a row exactly when one row matches (an error, read as no data, for none or several), and that row matches |
| Common.Map | project/src/store/notificationStore.ts:60-62 | `map`: same length, the i-th result is the function of the i-th element |
| Common.Dedupe | project/src/components/Notifications/NotificationList.tsx:39 | `[...new Set(xs)]`: the same elements, no repeats, no longer than the input, in the order of their first occurrences |
| Common.FirstIndex | project/src/components/Notifications/NotificationList.tsx:39 | the position of the first occurrence, below the length exactly when the element occurs, and no earlier position holds it |
| Common.Take | project/src/components/Friends/SearchUsers.tsx:32 | `.limit(n)`: the first `min(n, len)` rows, a prefix of the input |
| Common.LeadingSpace | project/src/components/Groups/CreateGroup.tsx:57 | the white space `trim` drops at the front: every character before it is space, the next one is not |
| Common.ContentEnd | project/src/components/Groups/CreateGroup.tsx:57 | where `trim` cuts the tail: everything after it is space, the character before it is not |
| Common.Trim | project/src/components/Groups/CreateGroup.tsx:30 | `trim()`: a slice of the input with no space at either end; empty exactly when the input is blank (`!s.trim()`); every dropped character is white space |
| Common.TrimIdempotent | project/src/components/Groups/GroupProfile.tsx:257 | trimming an already trimmed name changes nothing |
| Common.LowerChar | project/src/components/Chat/FriendsList.tsx:81 | `toLowerCase` on one character: `A`-`Z` map to `a`-`z`, any other character is kept |
| Common.ToLower | project/src/components/Chat/FriendsList.tsx:81 | `toLowerCase()`: same length, each character lowered |
| Common.ToLowerIdempotent | project/src/components/Chat/FriendsList.tsx:81-82 | lowering a lowered string changes nothing |
| Common.ContainsAt | project/src/components/Chat/FriendsList.tsx:81 | `includes`: a slice at any offset is included |
| Common.ContainsEmpty | project/src/components/Chat/FriendsList.tsx:81-82 | every string includes the empty search term |
| Common.InsertNewestFirst | project/src/store/notificationStore.ts:37 | one step of `order('created_at', desc)`: inserting into a newest-first list keeps it newest first and adds exactly that element |
| Common.SortNewestFirst | project/src/store/notificationStore.ts:34-37 | `order('created_at', { ascending: false })`: newest first, and a permutation of the rows |
| Tables.ProfileWithId | project/src/components/Groups/JoinRequestsManager.tsx:114-118 | the profile with that id when there is one, none exactly when no profile has it |
| Tables.ProfileWithIdAmong | project/src/components/Groups/JoinRequestsManager.tsx:48-57 | looking a profile up among the profiles fetched by `.in('id', ids)` finds what the whole table would |
| Tables.GroupWithId | project/src/components/Groups/GroupProfile.tsx:95-99 | the group with that id; none exactly when the table has none |
| Tables.RenameGroup | project/src/components/Groups/GroupProfile.tsx:255-258 | `update({ name }).eq('id', id)`: the rows with that id take the name, no other row and no other column changes |
| Tables.RenamedGroupWithId | project/src/components/Groups/GroupProfile.tsx:255-258 | after the rename the lookup finds the same group under the new name |
| Tables.SetSecondaryAdmins | project/src/components/Groups/GroupChat.tsx:434-437 | `update({ secondary_admins })`: that group takes the list, nothing else changes |
| Tables.WithoutGroup | project/src/components/Groups/GroupChat.tsx:377-380 | `delete().eq('id', id)`: the group is gone, every other group stays |
| Tables.MembershipOf | project/src/components/Groups/GroupProfile.tsx:125-130 | `.maybeSingle()` on the pair: a row of that user in that group; none exactly when the user is not a member |
| Tables.MembersOf | project/src/components/Groups/GroupProfile.tsx:263-266 | exactly the group's member rows |
| Tables.AdminsOf | project/src/components/Groups/GroupProfile.tsx:196-200 | exactly the group's rows whose role is `admin` or `secondary_admin` |
| Tables.PrimaryAdminOf | project/src/components/Groups/JoinRequestsManager.tsx:101-106 | a row of the group with role `admin`; none exactly when the group has none |
| Tables.WithoutMembership | project/src/components/Groups/GroupProfile.tsx:236-240 | the delete of the pair: the user is no longer a member, every other membership is kept |
| Tables.WithoutGroupMembers | project/src/components/Groups/GroupChat.tsx:371-374 | nobody is a member of the group afterwards; every other group's rows stay |
| Tables.FlagSecondaryAdmin | project/src/components/Groups/GroupChat.tsx:444-448 | the pair's rows get `is_secondary_admin = true`; no other row and no other column changes |
| Tables.PendingRequestsOf | project/src/components/Groups/JoinRequestsManager.tsx:27-36 | exactly the group's pending requests |
| Tables.Decision | project/src/components/Groups/JoinRequestsManager.tsx:83 | `approved ? 'approved' : 'rejected'`: approved exactly for an approval, never pending |
| Tables.SetRequestStatus | project/src/components/Groups/GroupJoinRequests.tsx:60-63 | the rows with that id take the status (and the stamp, when one is written); nothing else changes |
| Tables.MarkRead | project/src/store/notificationStore.ts:52-62 | the items with that id become read, no other item or column changes |
| Tables.MarkAllRead | project/src/store/notificationStore.ts:79 | every item read, nothing else changed |
| Tables.WithoutNotification | project/src/store/notificationStore.ts:88-96 | exactly the items with another id remain |
| Tables.CountUnread | project/src/store/notificationStore.ts:42 | the number of unread items; zero exactly when all are read |
| Tables.NoticeWithId | project/src/store/notificationStore.ts:97 | the first item with that id; none exactly when no item has it |
| Tables.NotificationsOf | project/src/pages/Notifications/index.tsx:17-20 | exactly the user's notifications |
| Tables.WithoutFriendship | project/src/pages/Friends/components/FriendsList.tsx:52-56 | no edge between the two remains, in either orientation; every other edge stays |
| Tables.SetFriendStatus | project/src/components/Friends/FriendRequests.tsx:101-104 | the request with that id takes the status; nothing else changes |
| Tables.NewFriendRequest | project/src/components/Friends/SearchUsers.tsx:76-82 | the inserted row: from the sender, to the receiver, pending |
| Tables.SetFriendStatusFrom | project/src/pages/Friends/components/FriendRequests.tsx:43-47 | every request of that sender to that receiver takes the status; nothing else changes |
| Tables.WithoutLike | project/src/components/Posts/PostCard.tsx:24-28 | the user's like of the post is gone, every other like stays |
| Tables.WithoutPost | project/src/components/Posts/PostCard.tsx:45-48 | the post is gone, every other post stays |
| Tables.WithoutMessage | project/src/components/Groups/GroupChat.tsx:415-424 | the message is gone from the table and from the list, every other stays |
| Tables.WithoutGroupMessages | project/src/components/Groups/GroupChat.tsx:365-368 | none of the group's messages remain, every other group's stay |
| NotificationStore.Decrement | project/src/store/notificationStore.ts:63 | `Math.max(0, c - 1)`: never negative, one less for a positive counter, zero otherwise |
| NotificationStore.Fetched | project/src/store/notificationStore.ts:33-44 | the fetched list is the table's rows, newest first and a permutation, and the counter is their number of unread rows |
| NotificationStore.CountUnreadPermutation | project/src/store/notificationStore.ts:37-42 | the unread count does not depend on the order the rows come back in |
| NotificationStore.MarkedRead | project/src/store/notificationStore.ts:59-64 | after `markAsRead` every item with that id is read and the counter is not negative |
| NotificationStore.CountMarkRead | project/src/store/notificationStore.ts:60-62 | marking an id read lowers the true unread count by exactly the number of unread items with that id |
| NotificationStore.MarkedReadConsistent | project/src/store/notificationStore.ts:59-64 | from a consistent store, the counter stays right after `markAsRead` exactly when one unread item had that id, or none did and the counter was already zero |
| NotificationStore.MarkReadItemMiscounts | project/src/store/notificationStore.ts:63 | a consistent store with one unread and one read item goes out of step when the read one is marked read: the counter drops to zero |
| NotificationStore.MarkedAllRead | project/src/store/notificationStore.ts:78-81 | after `markAllAsRead` every item is read, none is lost, and the zero counter is consistent |
| NotificationStore.Cleared | project/src/store/notificationStore.ts:95-99 | after `clearNotification` no item with that id is left, and a non-negative counter stays non-negative |
| NotificationStore.CountWithout | project/src/store/notificationStore.ts:96 | removing an id lowers the true unread count by exactly the number of unread items with that id |
| NotificationStore.UnreadWithIdUnique | project/src/store/notificationStore.ts:97-98 | with unique ids, the unread items with an id are one exactly when `find` returns an unread item, else none |
| NotificationStore.ClearedConsistent | project/src/store/notificationStore.ts:95-99 | from a consistent store with unique ids, the counter stays right after `clearNotification` exactly when the id was present or the counter was already zero |
| NotificationStore.AddedConsistent | project/src/store/notificationStore.ts:45-49 | from a consistent store, `addNotification` keeps the counter right exactly when the new item is unread |
| NotificationStore.ClearedAll | project/src/store/notificationStore.ts:113 | after `clearAllNotifications` the list is empty and the zero counter is consistent |
| NotificationStore.RowsWithEmptyId | project/src/store/notificationStore.ts:106-109 | `delete().neq('id', '')` leaves exactly the rows whose id is empty |
| NotificationStore.NotificationStore.constructor | project/src/store/notificationStore.ts:30-32 | the store starts empty with a zero counter, which is consistent |
| NotificationStore.NotificationStore.FetchNotifications | project/src/store/notificationStore.ts:33-44 | a failed query throws and changes nothing; otherwise the store becomes `Fetched` of the table and is consistent |
| NotificationStore.NotificationStore.AddNotification | project/src/store/notificationStore.ts:45-49 | the store becomes `Added` of the old one; a consistent store stays consistent exactly when the item is unread |
| NotificationStore.NotificationStore.MarkAsRead | project/src/store/notificationStore.ts:50-68 | a failed update changes nothing; otherwise the table's items with that id are read and the store becomes `MarkedRead` |
| NotificationStore.NotificationStore.MarkAllAsRead | project/src/store/notificationStore.ts:69-85 | a failed update changes nothing; otherwise every row of the table is read and the store is `MarkedAllRead`, consistent |
| NotificationStore.NotificationStore.ClearNotification | project/src/store/notificationStore.ts:86-103 | a failed delete changes nothing; otherwise the table loses the id's rows and the store becomes `Cleared` |
| NotificationStore.NotificationStore.ClearAllNotifications | project/src/store/notificationStore.ts:104-117 | a failed delete changes nothing; otherwise only rows with an empty id remain and the store is `ClearedAll` |
| GroupChat.MemberViews | project/src/components/Groups/GroupChat.tsx:79-99 | one view per member row of the group, keeping its admin flags; the to-one embed is an object, so `profiles[0]` is undefined and no view carries an id, a username or an avatar |
| GroupChat.MemberIds | project/src/components/Groups/GroupChat.tsx:172 | `map(member => member.id).filter(Boolean)`: exactly the non-empty ids the views carry |
| GroupChat.AvailableUsers | project/src/components/Groups/GroupChat.tsx:171-188 | exactly the profiles whose id is not among the member ids |
| GroupChat.AvailableUsersExcludeNobody | project/src/components/Groups/GroupChat.tsx:93-176 | since the views carry no id, the "available users" are every profile, members included |
| GroupChat.OptionValue | project/src/components/Groups/GroupChat.tsx:753-755 | the value of a member's `<option value={member.username}>`: empty when the username is undefined |
| GroupChat.OptionValuesAreEmpty | project/src/components/Groups/GroupChat.tsx:79-99 | every option of the fetched members list has the empty value |
| GroupChat.SecondaryAdminBranchUnreachable | project/src/components/Groups/GroupChat.tsx:157-161 | whenever the first test fails, the `else if` test fails too, so `setIsSecondaryAdmin(true)` is never reached |
| GroupChat.DeletedGroup | project/src/components/Groups/GroupChat.tsx:362-392 | the three deletes touch only their tables; each delete that succeeds leaves no message, no member, or no group row of that group |
| GroupChat.DeletedGroupEffects | project/src/components/Groups/GroupChat.tsx:362-392 | a failing group delete after a successful member delete leaves the group with no members; other groups' messages, members and rows survive every outcome |
| GroupChat.FlaggedAllEffects | project/src/components/Groups/GroupChat.tsx:442-450 | the per-value updates `.eq('user_id', username)` flag exactly the group's rows whose `user_id` equals a selected value whose update succeeds, changing no other column and no other row |
| GroupChat.FlaggingUnmatchedChangesNothing | project/src/components/Groups/GroupChat.tsx:442-450 | when no row of the group has a `user_id` equal to a selected value (usernames that are not ids), the updates change no row |
| GroupChat.SelectionFromListFlagsNobody | project/src/components/Groups/GroupChat.tsx:429-457 | a selection taken from the fetched members list flags no member row with a non-empty `user_id` |
| GroupChat.NewMembers | project/src/components/Groups/GroupChat.tsx:461-466 | one row per chosen user, in that group, with both admin flags false and no role |
| GroupChat.Appended | project/src/components/Groups/GroupChat.tsx:139-141 | `[...current, payload.new]`: the old list followed by the new message, which occurs once more than before |
| GroupChat.GroupChat.constructor | project/src/components/Groups/GroupChat.tsx:41-60 | every piece of view state starts empty or false for the given group |
| GroupChat.GroupChat.FetchGroupInfo | project/src/components/Groups/GroupChat.tsx:62-104 | the group's row is shown when its `.single()` read succeeds; the member views are replaced only when the member query succeeds too |
| GroupChat.GroupChat.FetchAvailableUsers | project/src/components/Groups/GroupChat.tsx:167-195 | a failing query keeps the list; otherwise it becomes the profiles not among the member ids |
| GroupChat.GroupChat.CheckAdminStatus | project/src/components/Groups/GroupChat.tsx:154-165 | the viewer becomes admin exactly when the group is loaded and they created it; the flag is never cleared |
| GroupChat.GroupChat.CheckGroupMembership | project/src/components/Groups/GroupChat.tsx:197-219 | with no signed-in id or a failed query nothing changes and the answer is false; otherwise the answer and `isMember` say whether the user has a row, and `isAdmin` is set when that row's `is_admin` is true |
| GroupChat.GroupChat.Outgoing | project/src/components/Groups/GroupChat.tsx:340-348 | the inserted message belongs to the group and the sender, with the trimmed draft as content |
| GroupChat.GroupChat.HandleSendMessage | project/src/components/Groups/GroupChat.tsx:316-360 | without something to send nothing changes; otherwise the message is appended exactly when the sender is a member and neither the upload nor the insert fails, and only then is the draft cleared |
| GroupChat.GroupChat.HandleDeleteGroup | project/src/components/Groups/GroupChat.tsx:362-392 | the tables become `DeletedGroup` of the old ones, and the page redirects exactly when the group delete succeeds |
| GroupChat.GroupChat.HandleRenameGroup | project/src/components/Groups/GroupChat.tsx:394-411 | a blank name or a failed update changes nothing; otherwise the group row and the shown group take the name untrimmed, and the field is cleared |
| GroupChat.GroupChat.HandleDeleteMessage | project/src/components/Groups/GroupChat.tsx:413-427 | a failed delete changes nothing; otherwise the message leaves the table and the shown list |
| GroupChat.GroupChat.HandleAssignSecondaryAdmin | project/src/components/Groups/GroupChat.tsx:429-457 | with a loaded group and at most three selected values, a successful group update stores them as its secondary admins, flags the group's rows whose `user_id` equals a selected value whose own update succeeds, and clears the selection; otherwise nothing changes; a selection of empty values leaves every row with a non-empty `user_id` unflagged |
| GroupChat.GroupChat.SelectOptions | project/src/components/Groups/GroupChat.tsx:747-756 | the selection becomes the values of the chosen options, in order; with the fetched list every value is empty |
| GroupChat.GroupChat.HandleAddUsers | project/src/components/Groups/GroupChat.tsx:459-477 | a failed insert changes nothing; otherwise the new member rows are appended and the group info is fetched again |
| GroupChat.GroupChat.OnMessageInserted | project/src/components/Groups/GroupChat.tsx:129-143 | a message inserted into the group is appended to the shown list |
| GroupProfile.StandingOf | project/src/components/Groups/GroupProfile.tsx:134-142 | member exactly when a row exists; admin exactly for role `admin`, secondary admin exactly for `secondary_admin`; never both, and either implies member |
| GroupProfile.JoinNotices | project/src/components/Groups/GroupProfile.tsx:204-215 | one unread `info` notice titled "New Join Request" per administrator row, addressed to that administrator, whose metadata carries the group, the requester and the new request's id; `content` stays empty because the source writes the text under `message` |
| GroupProfile.JoinRequested | project/src/components/Groups/GroupProfile.tsx:183-219 | the join touches only the requests and notifications tables |
| GroupProfile.JoinRequestedEffects | project/src/components/Groups/GroupProfile.tsx:179-227 | a failed insert changes nothing; otherwise one pending row for the requester is appended, and the notices appended (all of them, or none when the admin query or the notice insert fails) go only to the group's administrators and name this request |
| GroupProfile.PendingRequestOf | project/src/components/Groups/GroupProfile.tsx:153-163 | `.single()` on the user's pending requests for the group: a row exactly when there is exactly one, and it is such a request |
| GroupProfile.TwoPendingRequestsAreNotFound | project/src/components/Groups/GroupProfile.tsx:153-173 | with two pending requests of the same user for the group the read finds none, so "Request to Join" is offered again |
| GroupProfile.RenameNotices | project/src/components/Groups/GroupProfile.tsx:269-274 | one `group_renamed` notice per member row, addressed to that member, naming the group |
| GroupProfile.RenameNoticesReachMembers | project/src/components/Groups/GroupProfile.tsx:263-274 | every rename notice goes to a member of the group |
| GroupProfile.Renamed | project/src/components/Groups/GroupProfile.tsx:255-277 | the rename touches only the groups and notifications tables |
| GroupProfile.RenamedEffects | project/src/components/Groups/GroupProfile.tsx:251-287 | a failed update changes nothing; otherwise the group is found under the trimmed, non-empty name, no other group changes, and on full success exactly one notice per member row is appended, each to a member |
| GroupProfile.GroupProfile.constructor | project/src/components/Groups/GroupProfile.tsx:30-40 | the page starts loading, with no group, no standing and no pending request |
| GroupProfile.GroupProfile.FetchGroupDetails | project/src/components/Groups/GroupProfile.tsx:93-106 | the group is shown when its `.single()` read finds it; an error keeps what was shown |
| GroupProfile.GroupProfile.CheckMembershipStatus | project/src/components/Groups/GroupProfile.tsx:122-148 | for a signed-in user whose query succeeds the flags become `StandingOf` their membership row, otherwise they stay; loading ends for a signed-in user; admin still implies member |
| GroupProfile.GroupProfile.CheckPendingRequest | project/src/components/Groups/GroupProfile.tsx:150-177 | the pending flag is set exactly when `.single()` finds exactly one pending request of this user for this group, and is never cleared |
| GroupProfile.GroupProfile.HandleJoinRequest | project/src/components/Groups/GroupProfile.tsx:179-227 | a signed-out user, a member or a user with a pending request changes nothing; otherwise the tables become `JoinRequested` and the request shows as pending exactly when the insert succeeded |
| GroupProfile.GroupProfile.HandleExitGroup | project/src/components/Groups/GroupProfile.tsx:229-249 | a signed-in non-admin member who confirms and whose delete succeeds loses exactly that membership row and stops being a member; otherwise nothing changes |
| GroupProfile.GroupProfile.HandleRenameGroup | project/src/components/Groups/GroupProfile.tsx:251-287 | past the guard the tables become `Renamed` with the trimmed name; once the update succeeds the modal closes, the field clears and the group is fetched again; otherwise nothing changes |
| GroupProfile.GroupProfile.RenameRows | project/src/components/Groups/GroupProfile.tsx:255-277 | the awaited writes of a rename turn the tables into `Renamed` of the old ones |
| SearchUsers.Results | project/src/components/Friends/SearchUsers.tsx:27-32 | at most five profiles, each another user's whose username or university includes the term ignoring case; with fewer than five, every such profile is there |
| SearchUsers.FreshPairIsRequested | project/src/components/Friends/SearchUsers.tsx:53-82 | with no request and no edge between the two users, neither check blocks the insert |
| SearchUsers.TwoRequestsDoNotBlock | project/src/components/Friends/SearchUsers.tsx:53-62 | two requests between the same users make `.single()` fail, so the "already exists" check lets a third one through |
| SearchUsers.SearchUsers.constructor | project/src/components/Friends/SearchUsers.tsx:13-17 | an empty term, no results, not loading |
| SearchUsers.SearchUsers.HandleSearch | project/src/components/Friends/SearchUsers.tsx:19-46 | a blank term or no user changes nothing; otherwise loading ends and the results become `Results` unless the query fails, so at most five and never the user |
| SearchUsers.SearchUsers.SendFriendRequest | project/src/components/Friends/SearchUsers.tsx:48-93 | "already exists" exactly when the request read succeeds and one request joins the two; "already friends" exactly when not that, the edge read succeeds and one edge joins them; a pending request is appended exactly when neither check fires and the insert succeeds, and then the receiver leaves the results and the user is told it was sent; when neither check fires and the insert fails, the user is told it failed |
| JoinRequestsManager.PendingNewestFirst | project/src/components/Groups/JoinRequestsManager.tsx:27-37 | the group's pending requests, newest first, each exactly once |
| JoinRequestsManager.RequesterIds | project/src/components/Groups/JoinRequestsManager.tsx:47 | the requesters' ids, one per request, in order |
| JoinRequestsManager.ProfilesAmong | project/src/components/Groups/JoinRequestsManager.tsx:48-51 | `.in('id', ids)`: exactly the profiles with one of those ids |
| JoinRequestsManager.WithProfile | project/src/components/Groups/JoinRequestsManager.tsx:56-57 | a request joined to its profile keeps the request's id, requester, status and time |
| JoinRequestsManager.Joined | project/src/components/Groups/JoinRequestsManager.tsx:56-67 | one view per request, in order, keeping its fields, with the requester's username and avatar URL, each `''` when no profile matches or the avatar is null |
| JoinRequestsManager.JoinedAmongRequesters | project/src/components/Groups/JoinRequestsManager.tsx:47-57 | joining against the fetched profiles gives what joining against the whole table would |
| JoinRequestsManager.FetchedRequests | project/src/components/Groups/JoinRequestsManager.tsx:24-76 | a failed request query shows nothing new; no pending request shows an empty list; otherwise a failed profile query shows nothing new and a successful one shows the pending requests newest first, joined to the whole profile table; every view shown is a pending request of the group |
| JoinRequestsManager.LookUp | project/src/components/Groups/JoinRequestsManager.tsx:88-123 | the three reads succeed exactly when none of them fails and the group, its primary admin and the requester's profile all exist with non-empty name, id and username; and then the context holds exactly those |
| JoinRequestsManager.Notices | project/src/components/Groups/JoinRequestsManager.tsx:132-214 | an approval writes two unread `group_member` notices, `join_approved` to the admin and `join_request_approved` to the requester; a rejection writes one, `join_request_rejected`, to the requester; all name the group and the requester |
| JoinRequestsManager.Decided | project/src/components/Groups/JoinRequestsManager.tsx:132-214 | the decision touches only the member and notification tables |
| JoinRequestsManager.DecidedEffects | project/src/components/Groups/JoinRequestsManager.tsx:132-214 | a member row is added only on approval and is the requester's; a failed member insert writes no notice; it succeeds exactly when no awaited step fails, and then both notices are appended and an approved requester is a member |
| JoinRequestsManager.Processed | project/src/components/Groups/JoinRequestsManager.tsx:78-223 | the handler touches only requests, members and notifications, and throws exactly when the status update, a lookup or an awaited decision step fails |
| JoinRequestsManager.ProcessedStatus | project/src/components/Groups/JoinRequestsManager.tsx:78-223 | the handler completes exactly when no awaited step fails and every lookup finds its row |
| JoinRequestsManager.ThrownSteps | project/src/components/Groups/JoinRequestsManager.tsx:81-214 | with the lookups succeeding, "no awaited step fails" splits into the status update and the decision steps |
| JoinRequestsManager.ProcessedRows | project/src/components/Groups/JoinRequestsManager.tsx:78-223 | the request takes its decision unless that update fails; a failed update or lookup writes nothing else; a member row is only ever the requester's, on approval; on success the notices are appended and an approved requester is a member |
| JoinRequestsManager.AfterDecision | project/src/components/Groups/JoinRequestsManager.tsx:216-221 | after a throw the list stays; otherwise exactly the other requests remain |
| JoinRequestsManager.JoinRequestsManager.constructor | project/src/components/Groups/JoinRequestsManager.tsx:19-22 | no requests, loading |
| JoinRequestsManager.JoinRequestsManager.FetchJoinRequests | project/src/components/Groups/JoinRequestsManager.tsx:24-76 | loading ends, and the list becomes `FetchedRequests` when that yields a list, else stays |
| JoinRequestsManager.JoinRequestsManager.HandleRequest | project/src/components/Groups/JoinRequestsManager.tsx:78-223 | the tables become `Processed` of the old ones, the handler throws exactly when it does, and the list becomes `AfterDecision` |
| JoinRequestsManager.JoinRequestsManager.Process | project/src/components/Groups/JoinRequestsManager.tsx:78-214 | the awaited writes leave requests, members and notifications as `Processed` says, and report whether it throws |
| JoinRequestsManager.JoinRequestsManager.RecordDecision | project/src/components/Groups/JoinRequestsManager.tsx:132-214 | the member insert and the notices are written as the decision prescribes, and it throws exactly when an awaited decision step fails |
| NotificationList.GroupIds | project/src/components/Notifications/NotificationList.tsx:35-37 | exactly the group ids carried by `group_member` notices that name a non-empty group |
| NotificationList.CheckedGroups | project/src/components/Notifications/NotificationList.tsx:39-44 | the groups the loop queries: those same ids, each once, none empty |
| NotificationList.AdminStatus | project/src/components/Notifications/NotificationList.tsx:41-54 | one entry per checked group, true exactly when its query succeeds and the user's row there has role `admin` or `secondary_admin` |
| NotificationList.NoCreatedNoticeOffersJoinActions | project/src/components/Notifications/NotificationList.tsx:158-160 | no notice the client itself creates (join-request notices, rename notices, decision notices) carries `action: 'join_request'`, so none offers accept/decline |
| NotificationList.JoinDecided | project/src/components/Notifications/NotificationList.tsx:86-114 | the decision touches only requests, members and notifications |
| NotificationList.JoinDecidedEffects | project/src/components/Notifications/NotificationList.tsx:86-114 | without request and group ids, or with a failed status update, nothing changes; otherwise the request takes the decision, an approval appends the notice's user as a member unless that insert fails, a rejection or a failed insert adds none, and the notice is deleted unless that delete fails, whatever the member insert did |
| NotificationList.NotificationList.constructor | project/src/components/Notifications/NotificationList.tsx:24 | no admin status known |
| NotificationList.NotificationList.CheckGroupAdminStatus | project/src/components/Notifications/NotificationList.tsx:31-60 | without a user nothing changes; otherwise the map becomes `AdminStatus` of the checked groups |
| NotificationList.NotificationList.HandleMarkAsRead | project/src/components/Notifications/NotificationList.tsx:72-77 | runs the store's `markAsRead` and closes the panel exactly when the counter read before was at most one |
| NotificationList.NotificationList.HandleClearNotification | project/src/components/Notifications/NotificationList.tsx:79-84 | runs the store's `clearNotification` and closes exactly when the list read before held at most one item |
| NotificationList.NotificationList.HandleJoinRequest | project/src/components/Notifications/NotificationList.tsx:86-114 | the tables become `JoinDecided`, and the store clears the notice exactly when the notice is decidable and neither the status update nor the notice delete fails |
| NotificationList.NotificationList.HandleNotificationClick | project/src/components/Notifications/NotificationList.tsx:116-122 | only a `group_member` notice naming a group opens it, closes the panel and is marked read (in the table and the store, unless the update fails); any other click changes nothing |
| NotificationsPage.Listed | project/src/pages/Notifications/index.tsx:17-21 | exactly the user's notifications, newest first, each once |
| NotificationsPage.MarkReadWithdrawsOffer | project/src/pages/Notifications/index.tsx:43-88 | after marking an id read, an item offers "mark as read" exactly when it did before and has another id; the newest-first order is kept |
| NotificationsPage.NotificationsPage.constructor | project/src/pages/Notifications/index.tsx:9-10 | no notifications, loading |
| NotificationsPage.NotificationsPage.FetchNotifications | project/src/pages/Notifications/index.tsx:13-30 | without a user nothing changes; otherwise loading ends and the list becomes `Listed` unless the query fails |
| NotificationsPage.NotificationsPage.MarkAsRead | project/src/pages/Notifications/index.tsx:35-49 | a failed update changes nothing; otherwise the table and the list mark that id read; the list keeps its length and its order |
| GroupMembers.Formatted | project/src/components/Groups/GroupMembers.tsx:30-50 | with every member's profile present, one entry per member row in order, carrying the profile's id, username and avatar URL and the row's role and join time; a member without a profile makes `member.profiles.id` throw, so nothing is formatted |
| GroupMembers.WithoutEntry | project/src/components/Groups/GroupMembers.tsx:70 | exactly the entries with another id remain |
| GroupMembers.OfferedRemovalSparesUser | project/src/components/Groups/GroupMembers.tsx:103-105 | a removal the button offers never affects the viewer's own membership |
| GroupMembers.GroupMembers.constructor | project/src/components/Groups/GroupMembers.tsx:19-22 | no members, loading |
| GroupMembers.GroupMembers.FetchMembers | project/src/components/Groups/GroupMembers.tsx:28-58 | loading ends; the list becomes the formatted members when the query succeeds and formatting does not throw, and stays otherwise |
| GroupMembers.GroupMembers.RemoveMember | project/src/components/Groups/GroupMembers.tsx:60-74 | a failed delete changes nothing; otherwise that user's membership rows go and the entry leaves the list |
| GroupList.CheckMembership | project/src/components/Groups/GroupList.tsx:26-47 | true exactly when a user with a non-empty id is signed in, the query succeeds and they have a row in the group |
| GroupList.Listed | project/src/components/Groups/GroupList.tsx:49-79 | one entry per group, in order, with its membership check and its number of member rows; a member's group never shows zero members |
| GroupList.GroupList.constructor | project/src/components/Groups/GroupList.tsx:19-20 | no groups, loading |
| GroupList.GroupList.FetchGroups | project/src/components/Groups/GroupList.tsx:49-79 | loading ends, and the list becomes `Listed` unless the groups query fails |
| GroupList.GroupList.JoinGroup | project/src/components/Groups/GroupList.tsx:81-97 | a failed insert changes nothing; otherwise a `member` row is appended and the list is fetched again, showing the user as a member of that group unless its check fails |
| GroupList.GroupList.LeaveGroup | project/src/components/Groups/GroupList.tsx:99-113 | a failed delete changes nothing; otherwise the user's rows in that group go and the refetched list shows them as no member of it |
| GroupJoinRequests.Entries | project/src/components/Groups/GroupJoinRequests.tsx:36-49 | every pending request of the group and nothing else, each with its requester's profile |
| GroupJoinRequests.EntryWithId | project/src/components/Groups/GroupJoinRequests.tsx:69 | `requests.find(r => r.id === requestId)`: an entry with that id; none exactly when no entry has it |
| GroupJoinRequests.Handled | project/src/components/Groups/GroupJoinRequests.tsx:57-88 | the handler touches only requests and members |
| GroupJoinRequests.HandledEffects | project/src/components/Groups/GroupJoinRequests.tsx:57-88 | a failed status update changes nothing and does not reload; otherwise the request takes the decision and a stamp; a member row is added exactly on an approval of a listed request whose insert succeeds, and it is the requester's; the list reloads on a rejection or a successful approval |
| GroupJoinRequests.GroupJoinRequests.constructor | project/src/components/Groups/GroupJoinRequests.tsx:23-25 | no requests, loading |
| GroupJoinRequests.GroupJoinRequests.Mount | project/src/components/Groups/GroupJoinRequests.tsx:28-90 | an administrator's panel fetches the entries; any other panel changes nothing and never renders |
| GroupJoinRequests.GroupJoinRequests.FetchRequests | project/src/components/Groups/GroupJoinRequests.tsx:34-55 | loading ends, and the list becomes `Entries` unless the query fails |
| GroupJoinRequests.GroupJoinRequests.HandleRequest | project/src/components/Groups/GroupJoinRequests.tsx:57-88 | the tables become `Handled`, and the list is fetched again exactly when `Handled` says it reloads |
| CreateGroup.NewGroup | project/src/components/Groups/CreateGroup.tsx:56-67 | the inserted group: the creator's, trimmed name and description, the image URL, at most 120 members and the default settings |
| CreateGroup.Submitted | project/src/components/Groups/CreateGroup.tsx:33-82 | creating a group touches only the groups and members tables |
| CreateGroup.SubmittedEffects | project/src/components/Groups/CreateGroup.tsx:28-95 | a failed upload of a chosen image or a failed group insert changes nothing; a member row is only ever added after the group row; on success the creator gets one `admin` row, which `StandingOf` reads as admin and `GroupChat.CreatedBy` confirms, while its `is_admin` flag stays unset |
| CreateGroup.ImageUrl | project/src/components/Groups/CreateGroup.tsx:34-51 | there is an image URL exactly when an image was chosen |
| CreateGroup.CreateGroup.constructor | project/src/components/Groups/CreateGroup.tsx:15-18 | empty fields, no image, not loading |
| CreateGroup.CreateGroup.HandleImageChange | project/src/components/Groups/CreateGroup.tsx:21-26 | a chosen file is kept exactly when its type starts with `image/`; otherwise the old choice stays |
| CreateGroup.CreateGroup.HandleSubmit | project/src/components/Groups/CreateGroup.tsx:28-95 | with no user or a blank name nothing changes; otherwise the tables become `Submitted`, loading ends, and the new group is reported exactly when its admin row was written |
| CreateGroupPage.PageGroup | project/src/pages/Groups/components/CreateGroup.tsx:20-24 | the inserted group carries the untrimmed name and description and the creator |
| CreateGroupPage.Submitted | project/src/pages/Groups/components/CreateGroup.tsx:16-38 | creating a group touches only the groups and members tables |
| CreateGroupPage.SubmittedEffects | project/src/pages/Groups/components/CreateGroup.tsx:11-47 | a failed group insert changes nothing; a member row only follows the group row; on success the creator is a member with no role, so neither admin nor secondary admin |
| CreateGroupPage.CreateGroupPage.constructor | project/src/pages/Groups/components/CreateGroup.tsx:7-9 | empty fields, not loading |
| CreateGroupPage.CreateGroupPage.HandleSubmit | project/src/pages/Groups/components/CreateGroup.tsx:11-47 | with a blank name or no user nothing changes; otherwise the tables become `Submitted`, loading ends, and the fields are cleared exactly when both inserts succeed |
| PostCard.Toggled | project/src/components/Posts/PostCard.tsx:23-35 | the flag flips, and the counter goes down by one on an unlike and up by one on a like |
| PostCard.UnlikeUndoesLike | project/src/components/Posts/PostCard.tsx:24-32 | deleting the like just inserted by a user who had not liked the post gives the table back |
| PostCard.PostCard.constructor | project/src/components/Posts/PostCard.tsx:15-16 | the card starts at zero likes, unliked |
| PostCard.PostCard.HandleLike | project/src/components/Posts/PostCard.tsx:19-39 | without a user nothing changes; otherwise the card toggles whatever the write reports, and a write that succeeds deletes or inserts exactly that like; from zero, the counter is one exactly when liked |
| PostCard.PostCard.HandleDelete | project/src/components/Posts/PostCard.tsx:41-55 | only the post's author deletes it; the delete is reported exactly when it succeeds, and then no row with the post's id is left |
| FriendRequests.Received | project/src/components/Friends/FriendRequests.tsx:45-61 | exactly the pending requests the user received |
| FriendRequests.Sent | project/src/components/Friends/FriendRequests.tsx:67-83 | exactly the pending requests the user sent |
| FriendRequests.FriendDecision | project/src/components/Friends/FriendRequests.tsx:95-103 | `accepted` exactly for an acceptance, never pending |
| FriendRequests.RequestWithId | project/src/components/Friends/FriendRequests.tsx:97 | `receivedRequests.find(r => r.id === requestId)`: a received request with that id; none exactly when no listed request has it |
| FriendRequests.Handled | project/src/components/Friends/FriendRequests.tsx:95-127 | the handler touches only requests and friendships |
| FriendRequests.HandledEffects | project/src/components/Friends/FriendRequests.tsx:95-127 | an unlisted request or a failed status update changes nothing and refreshes nothing; otherwise the request takes the decision; an edge from sender to receiver is added exactly on an acceptance whose insert succeeds; the lists refresh unless a throw skips it |
| FriendRequests.HandledLeavesLists | project/src/components/Friends/FriendRequests.tsx:101-121 | once its status is written, the decided request is in neither refreshed list |
| FriendRequests.FriendRequests.constructor | project/src/components/Friends/FriendRequests.tsx:30-32 | both lists empty, loading |
| FriendRequests.FriendRequests.FetchRequests | project/src/components/Friends/FriendRequests.tsx:38-93 | without a user nothing changes; otherwise loading ends, the received list is replaced unless its query fails, and the sent list only when both queries succeed |
| FriendRequests.FriendRequests.HandleRequest | project/src/components/Friends/FriendRequests.tsx:95-127 | the tables become `Handled`, and the lists are fetched again exactly when `Handled` says it refreshes |
| FriendRequestsPage.Senders | project/src/pages/Friends/components/FriendRequests.tsx:21-30 | only profiles of senders of pending requests to the user, and every such sender that has a profile |
| FriendRequestsPage.DecidedSenderNotRelisted | project/src/pages/Friends/components/FriendRequests.tsx:43-52 | after a decision on a sender's requests that sender is not listed again |
| FriendRequestsPage.FriendRequestsPage.constructor | project/src/pages/Friends/components/FriendRequests.tsx:13-14 | no requests, loading |
| FriendRequestsPage.FriendRequestsPage.FetchRequests | project/src/pages/Friends/components/FriendRequests.tsx:17-36 | without a user nothing changes; otherwise loading ends and the list becomes `Senders` unless the query fails |
| FriendRequestsPage.FriendRequestsPage.HandleRequest | project/src/pages/Friends/components/FriendRequests.tsx:41-56 | a failed update changes nothing; otherwise every request of that sender to the user takes the decision and exactly the other senders stay listed |
| FriendsListPage.OtherEnd | project/src/pages/Friends/components/FriendsList.tsx:26-28 | the other endpoint of an edge that involves the user |
| FriendsListPage.FriendIds | project/src/pages/Friends/components/FriendsList.tsx:26-28 | one id per edge, the other end of each edge involving the user |
| FriendsListPage.EdgesOf | project/src/pages/Friends/components/FriendsList.tsx:18-21 | exactly the edges with the user at either end |
| FriendsListPage.ProfilesIn | project/src/pages/Friends/components/FriendsList.tsx:31-34 | `.in('id', ids)`: exactly the profiles with one of those ids |
| FriendsListPage.FriendIdsAreFriends | project/src/pages/Friends/components/FriendsList.tsx:18-28 | an id is listed exactly when an edge joins it to the user |
| FriendsListPage.RemovedFriendNotReloaded | project/src/pages/Friends/components/FriendsList.tsx:52-56 | after the delete, a reload no longer lists the removed friend |
| FriendsListPage.FriendsListPage.constructor | project/src/pages/Friends/components/FriendsList.tsx:9-10 | no friends, loading |
| FriendsListPage.FriendsListPage.FetchFriends | project/src/pages/Friends/components/FriendsList.tsx:13-44 | without a user nothing changes; otherwise loading ends, and the list becomes the friends' profiles unless a query fails or the user has no edge |
| FriendsListPage.FriendsListPage.HandleRemoveFriend | project/src/pages/Friends/components/FriendsList.tsx:49-64 | a failed delete changes nothing; otherwise no edge joins the two any more, every other edge stays, and exactly the other friends stay listed |
| ChatFriendsList.Embedded | project/src/components/Chat/FriendsList.tsx:62-63 | the profile at the other end: `profile2` when the user is `user_id1`, `profile1` otherwise; none when that profile is missing |
| ChatFriendsList.Projected | project/src/components/Chat/FriendsList.tsx:62-69 | the `map` over the edges: none exactly when some edge's embedded profile is missing (the `.id` access throws); otherwise one profile per edge, in order, each the edge's other end |
| ChatFriendsList.Friends | project/src/components/Chat/FriendsList.tsx:46-70 | the list fails exactly when some edge of the user has no profile at its other end; otherwise a profile is listed exactly when its id is non-empty and it is the other-end profile of one of the user's edges |
| ChatFriendsList.ProjectedMembers | project/src/components/Chat/FriendsList.tsx:58-67 | the `map` over the edges fails exactly when one embed is null, and otherwise holds exactly the edges' embeds |
| ChatFriendsList.OtherEndsAreFriends | project/src/components/Chat/FriendsList.tsx:58-70 | once the list loads, each edge of the user shows its other-end profile unless that profile's id is empty |
| ChatFriendsList.FriendsAreOtherEnds | project/src/components/Chat/FriendsList.tsx:58-70 | every listed friend is the profile at the other end of one of the user's edges |
| ChatFriendsList.FilteredFriends | project/src/components/Chat/FriendsList.tsx:80-83 | a friend is kept exactly when the lower-cased username or university includes the lower-cased term; never longer than the list |
| ChatFriendsList.EmptySearchKeepsAll | project/src/components/Chat/FriendsList.tsx:80-83 | an empty search term keeps every friend, in order |
| ChatFriendsList.SearchIgnoresTermCase | project/src/components/Chat/FriendsList.tsx:81-82 | the filter gives the same list for a term and its lower-cased form |
| ChatFriendsList.ChatFriendsList.constructor | project/src/components/Chat/FriendsList.tsx:34-35 | no friends, loading |
| ChatFriendsList.ChatFriendsList.FetchFriends | project/src/components/Chat/FriendsList.tsx:43-78 | without a user nothing changes; otherwise loading ends, a failed query or a missing embedded profile keeps the list, and on success the list becomes `Friends` |
| SuggestedFriends.Suggestions | project/src/components/Friends/SuggestedFriends.tsx:29-33 | at most four profiles, none of them the user; all other profiles are shown when fewer than four exist |
| SuggestedFriends.FriendsAreSuggested | project/src/components/Friends/SuggestedFriends.tsx:29-33 | the query excludes nobody but the user: an existing friend is suggested when fewer than four other profiles exist |
| SuggestedFriends.SuggestedFriends.constructor | project/src/components/Friends/SuggestedFriends.tsx:15-16 | no suggestions, loading |
| SuggestedFriends.SuggestedFriends.FetchSuggestions | project/src/components/Friends/SuggestedFriends.tsx:22-47 | without a user nothing changes; otherwise loading ends and the list becomes `Suggestions` unless the query fails |
| SuggestedFriends.SuggestedFriends.SendFriendRequest | project/src/components/Friends/SuggestedFriends.tsx:49-68 | without a user or on a failed insert nothing changes; otherwise one pending request from the user is appended and exactly the receiver leaves the list |
| PeopleYouMayKnow.FriendEndpoints | project/src/pages/Friends/components/PeopleYouMayKnow.tsx:41-44 | an id is collected exactly when it is an endpoint of one of the edges |
| PeopleYouMayKnow.RequestEndpoints | project/src/pages/Friends/components/PeopleYouMayKnow.tsx:45-48 | an id is collected exactly when it is the sender or receiver of one of the requests |
| PeopleYouMayKnow.ExcludedIds | project/src/pages/Friends/components/PeopleYouMayKnow.tsx:40-48 | the two loops build the user plus both ends of every edge and every request |
| PeopleYouMayKnow.FetchedFriendships | project/src/pages/Friends/components/PeopleYouMayKnow.tsx:29-32 | exactly the user's edges; nothing when the unchecked read fails |
| PeopleYouMayKnow.FetchedRequests | project/src/pages/Friends/components/PeopleYouMayKnow.tsx:34-37 | exactly the requests the user sent or received, of any status; nothing when the unchecked read fails |
| PeopleYouMayKnow.SortPermutes | project/src/pages/Friends/components/PeopleYouMayKnow.tsx:61-65 | the sort is a permutation of the fetched profiles |
| PeopleYouMayKnow.SortKeepsMembers | project/src/pages/Friends/components/PeopleYouMayKnow.tsx:61-65 | the sort lists exactly the fetched profiles, as many as were fetched |
| PeopleYouMayKnow.SortOrders | project/src/pages/Friends/components/PeopleYouMayKnow.tsx:61-65 | after the sort every same-university profile precedes every other one |
| PeopleYouMayKnow.SortIsStable | project/src/pages/Friends/components/PeopleYouMayKnow.tsx:61-65 | within each class the sort keeps the fetched order |
| PeopleYouMayKnow.SortIsUnique | project/src/pages/Friends/components/PeopleYouMayKnow.tsx:61-65 | any same-first arrangement that keeps each class in fetched order is the sort's result |
| PeopleYouMayKnow.FilterKeepsSameFirst | project/src/pages/Friends/components/PeopleYouMayKnow.tsx:91 | dropping people keeps a same-first list same-first |
| PeopleYouMayKnow.People | project/src/pages/Friends/components/PeopleYouMayKnow.tsx:40-65 | at most twenty profiles from the table, none in the exclusion set; with no more than twenty profiles outside it, every one of them is listed |
| PeopleYouMayKnow.PeopleAreStrangers | project/src/pages/Friends/components/PeopleYouMayKnow.tsx:40-56 | when both exclusion reads succeed, nobody listed is the user or at either end of one of the user's edges or requests |
| PeopleYouMayKnow.PeopleSameFirst | project/src/pages/Friends/components/PeopleYouMayKnow.tsx:51-65 | the listed people are same-university first |
| PeopleYouMayKnow.PeopleYouMayKnow.constructor | project/src/pages/Friends/components/PeopleYouMayKnow.tsx:9-11 | no people, loading, no own profile |
| PeopleYouMayKnow.PeopleYouMayKnow.FetchUserProfileAndPeople | project/src/pages/Friends/components/PeopleYouMayKnow.tsx:14-73 | without a user nothing changes; a missing own profile or a failed read keeps the list; on success the list is `People` for the user's university and every badge-bearing entry comes first; loading ends |
| PeopleYouMayKnow.PeopleYouMayKnow.HandleSendRequest | project/src/pages/Friends/components/PeopleYouMayKnow.tsx:78-124 | a failed insert changes nothing; otherwise one pending request is appended and exactly that person leaves the list; the badge-first order is kept |
| PostCard.ToggleTwice | project/src/components/Posts/PostCard.tsx:23-35 | liking then unliking (or the reverse) restores both the counter and the flag |
| PostCard.ToggleKeepsFromZero | project/src/components/Posts/PostCard.tsx:15-35 | a toggle keeps the counter at 1 exactly when liked, the relation the initial zero, unliked card starts in |

## Left out

- Rendering: JSX, styles, modals, `toast`, `alert`, navigation and `window.location` redirects are not modelled; a redirect the source performs is at most a returned flag.
- Realtime channels: subscribing and unsubscribing are not modelled; only `GroupChat`'s append of an inserted message is (`GroupChat.GroupChat.OnMessageInserted`). The second admin fan-out that `GroupProfile` fires from its subscription depends on event timing and is left out.
- Concurrency: every handler runs to completion alone; interleaved handlers, other sessions and React's deferred state updates are not modelled.
- File storage: uploads, generated file names and public URLs are inputs (`publicUrl`, `imagePath`), and an upload failure is one of the step failures.
- Generated values: row ids, `created_at`/`updated_at` timestamps and `crypto.randomUUID` are inputs; timestamps are naturals.
- Query semantics of the hosted database: a query is a filter over the in-memory table. `.single()` and `.maybeSingle()` are "the first matching row" except in `SearchUsers` and in the group page's pending-request check (`GroupProfile.PendingRequestOf`), where the several-rows error matters (`Common.Single`). `ilike '%t%'` is ASCII case-insensitive `includes`; other Unicode case folding is not modelled.
- `order('created_at', desc)` ties: rows with equal timestamps come out in the order the insertion sort leaves them, which the database does not promise.
- PeopleYouMayKnow.People: the server-side `.order('university', …)` before `.limit(20)` is not modelled; the twenty candidates are taken in table order, so which twenty are chosen may differ from the database's.
- Row-level security, foreign keys and unique constraints of the database are not modelled: an insert the database would refuse succeeds here unless its failure input says otherwise.
- The `types` files and the thin notification insert helpers are not part of this model; the record datatypes in `Tables` follow the columns the handlers read and write.
- Pages that only compose components or run one fetch or insert (layout, routing, dashboards, the post and chat composers) are not part of this model.
- Console logging and the `loading` flags of purely visual spinners beyond the ones each class keeps are not modelled.
- GroupProfile.JoinNotices: the text the source writes under the `message` key is not kept, because the notification record has no such column; whether the database refuses the key is the `InsertNotices` failure input.
- GroupChat.MemberViews: the member embed is taken to be the single object a to-one relation returns, as `GroupMembers.Formatted` reads it, so `profiles[0]` is undefined; a database that returned an array would give the views usernames and avatars.
- Common.ToLower: lower-cases ASCII letters only; JavaScript's `toLowerCase` and the database's `ilike` also fold other Unicode letters.
- SearchUsers.Results: the term is matched as a literal substring; `ilike`'s `%` and `_` wildcards in the term, and commas or parentheses that alter the `.or(...)` filter string, are not modelled.
- GroupList.GroupList.JoinGroup: modelled for a signed-in user; with none the source sends `user_id: undefined`, whose outcome depends on the database.
- GroupList.GroupList.LeaveGroup: modelled for a signed-in user, for the same reason.
- PeopleYouMayKnow.PeopleYouMayKnow.HandleSendRequest: modelled for a signed-in user, for the same reason.
- FriendsListPage.FriendsListPage.HandleRemoveFriend: modelled for a signed-in user, for the same reason.
