# ChatApp core in Dafny

This project models the deterministic core of ChatApp, an Android chat client whose screens sit on a
hosted realtime database. The database, its listeners and the UI toolkit are replaced by explicit
inputs: snapshots, id sets, the signed-in uid, a calendar and push keys. The outputs are screen
state, and the multi-path updates the screens send, written as a `WriteSet`: a map from a path to the
value written there, with `None` standing for Kotlin `null` (delete).

The modules follow the app's files:

- `Records`: `User`, `Group` and `Message` with their defaults. Also the five-colour palette and the
  group invariant "the admin is a member".
- `Text`: Kotlin `trim()`, `uppercase()` and `take(n)`.
- `ShortIds`: derives the five-character short id from a uid and validates it when typed in.
- `WriteSets`: paths, write-sets, prefix-freeness (no path of an update lies inside another), the
  per-member group links, and what a group or user record looks like once an update is applied.
- `Register`: the sign-up checks and the records a new account writes (RegisterActivity).
- `Dashboard`: the roster of friends and groups, reconciled from listener snapshots; the
  empty-state flag; the id badge; adding a friend (DashboardActivity).
- `Timeline`: the message rows interleaved with day headers, and the view-type rule
  (MessageAdapter). The shared `MessageList` the chat screens refill is here too.
- `Chat`: the room id, the id guard, sending, unmatching, and the message listener (ChatActivity).
- `GroupChat`: removing a member, leaving and deleting a group, the delete-menu rule and the message
  listener (GroupChatActivity).
- `Members`: the admin badge and remove button of the member sheet (MemberAdapter).
- `SelectFriend`: the picker's own set of ticked uids (SelectFriendAdapter).
- `CreateGroup`: the friend list, the selection and the write-set of a new group (CreateGroupActivity).
- `Settings`: the colour and picture selection and the profile update (SettingsActivity).

Screens and adapters whose fields change are classes. A list that an activity and its adapter share
(`messageList`, `friendsList`) is an object both of them reference, so refilling it through one is
seen through the other. Loops of the source stay loops:

- the header pass of `updateDisplayList`;
- the refill of a message list;
- the member and link loops of group creation and deletion.

Each loop is proved equal to a declarative definition, and the properties are proved about that
definition. The settings screen's `when` over the stored colour has one arm per palette colour,
each selecting that same colour, and no else arm; it is modelled as a test of palette membership.

Where a natural reading of the app differs from its code, the model follows the code:

- A friend whose record changes moves to the end of the roster. The code removes the user and
  appends it again. It does not keep its place.
- Every change of the signed-in user's own node empties the whole roster before the listeners refill
  it. This includes changes unrelated to friends or groups.
- A group whose record changes moves to the front.

## Model

| member | source | states |
|---|---|---|
| Text.Trim | app/src/main/java/com/example/chatapp/RegisterActivity.kt:43-46 | the trimmed text is a slice of the input with only whitespace cut on either side, starts and ends with non-whitespace, and is empty exactly when the input is all whitespace (whitespace as Kotlin's `isWhitespace`) |
| Text.TrimIdempotent | app/src/main/java/com/example/chatapp/ChatActivity.kt:76 | trimming an already trimmed text changes nothing |
| Text.TrimIgnoresPadding | app/src/main/java/com/example/chatapp/DashboardActivity.kt:120 | whitespace added before and after a text does not change its trim |
| Text.TrimOfUpper | app/src/main/java/com/example/chatapp/DashboardActivity.kt:120 | trimming and upper-casing commute |
| Text.Utf16Length | app/src/main/java/com/example/chatapp/DashboardActivity.kt:121 | a text of n characters has between n and 2n UTF-16 code units |
| Text.Utf16LengthOfUpper | app/src/main/java/com/example/chatapp/DashboardActivity.kt:120-121 | upper-casing keeps the number of UTF-16 code units |
| Text.Upper | app/src/main/java/com/example/chatapp/DashboardActivity.kt:120 | upper-casing keeps the length, maps character i to its upper case, leaves no lower-case letter and keeps every other character |
| Text.UpperIdempotent | app/src/main/java/com/example/chatapp/DashboardActivity.kt:120 | upper-casing twice is upper-casing once |
| ShortIds.ShortIdOf | app/src/main/java/com/example/chatapp/RegisterActivity.kt:62 | the short id has min(5, length of uid) characters, and character i is the upper case of uid character i |
| ShortIds.ParseShortIdInput | app/src/main/java/com/example/chatapp/DashboardActivity.kt:120-127 | typed input is accepted exactly when its trimmed text is 5 UTF-16 code units long; the accepted id is the trimmed text upper-cased and holds no lower-case letter |
| ShortIds.ShortIdIsAccepted | app/src/main/java/com/example/chatapp/RegisterActivity.kt:62 | typing back the short id derived from a uid is accepted as that very id, for a uid whose first five characters are in the Basic Multilingual Plane, the first and fifth not whitespace |
| ShortIds.PaddingIgnored | app/src/main/java/com/example/chatapp/DashboardActivity.kt:120 | whitespace typed before and after the id does not change the outcome: padded input parses exactly as the bare input |
| ShortIds.CaseIgnored | app/src/main/java/com/example/chatapp/CreateGroupActivity.kt:134-135 | typing the id in upper case does not change the outcome: upper-cased input parses exactly as the input as typed |
| ShortIds.ShortIdKeepsValidPath | app/src/main/java/com/example/chatapp/RegisterActivity.kt:62 | upper-casing brings in no refused path character: a uid that is valid path text gives a short id that is valid path text |
| ShortIds.RefusedPathPassesLengthCheck | app/src/main/java/com/example/chatapp/DashboardActivity.kt:120-121 | five characters with non-whitespace ends and a refused path character inside are accepted by the length check, and the accepted id still holds the refused character |
| WriteSets.GroupLinks | app/src/main/java/com/example/chatapp/GroupChatActivity.kt:236 | a member's `/Users/m/groups/gid` link is in the set exactly when m is a member |
| WriteSets.GroupLinksCount | app/src/main/java/com/example/chatapp/GroupChatActivity.kt:236 | there is one link per member: as many links as members |
| WriteSets.SetGroupLinks | app/src/main/java/com/example/chatapp/CreateGroupActivity.kt:164 | the forEach over members writes exactly the members' links, each with the one given value (used for the `true` links of creation and the deletions of deleteGroup) |
| WriteSets.GroupRemovalShape | app/src/main/java/com/example/chatapp/GroupChatActivity.kt:235-238 | the links plus the group and chat nodes are \|members\|+2 distinct, non-nested paths |
| WriteSets.GroupCreationShape | app/src/main/java/com/example/chatapp/CreateGroupActivity.kt:162-164 | the group node plus the links are \|members\|+1 distinct, non-nested paths |
| WriteSets.LinksWithGroupNode | app/src/main/java/com/example/chatapp/CreateGroupActivity.kt:162-164 | adding the group record to the members' links keeps every link's value and the record, giving \|members\|+1 non-nested paths |
| Register.ValidateRegistration | app/src/main/java/com/example/chatapp/RegisterActivity.kt:43-56 | rejected as incomplete exactly when a trimmed field is empty; otherwise rejected as mismatched exactly when the trimmed passwords differ; otherwise the trimmed fields are passed on |
| Register.RegisterWrites | app/src/main/java/com/example/chatapp/RegisterActivity.kt:61-71 | the update writes the new user (empty picture, colour #FFFFFF, derived short id) at /Users/uid and the uid at /ShortIds/shortId, so a lookup by the short id yields the uid; the paths are not nested |
| Dashboard.WithoutKey | app/src/main/java/com/example/chatapp/DashboardActivity.kt:172 | removeAll drops exactly the entries of that kind and id, and the length falls by their number |
| Dashboard.WithoutKeyKeepsOrder | app/src/main/java/com/example/chatapp/DashboardActivity.kt:187 | removeAll keeps the remaining entries in their order |
| Dashboard.AfterGroupSnapshot | app/src/main/java/com/example/chatapp/DashboardActivity.kt:170-173 | a group node that does not exist (`null`) leaves the roster as it is; a group is at the front and the roster grows by at most one |
| Dashboard.AfterUserSnapshot | app/src/main/java/com/example/chatapp/DashboardActivity.kt:185-188 | a user node that does not exist (`null`) leaves the roster as it is; a user is at the end and the roster grows by at most one |
| Dashboard.CountWithoutKey | app/src/main/java/com/example/chatapp/DashboardActivity.kt:172 | after removeAll no entry has the removed key, and every other key (the other kind with an equal id included) keeps its count |
| Dashboard.GroupSnapshotEffect | app/src/main/java/com/example/chatapp/DashboardActivity.kt:170-173 | after a group arrives: it is at index 0, it is the only group with its id, no other key changes count (a user with the same id survives), and the other entries stay in order |
| Dashboard.UserSnapshotEffect | app/src/main/java/com/example/chatapp/DashboardActivity.kt:185-188 | after a user arrives: it is last even if it was listed before, it is the only user with its uid, no other key changes count, and the other entries stay in order |
| Dashboard.GroupSnapshotKeepsInvariant | app/src/main/java/com/example/chatapp/DashboardActivity.kt:167-176 | a group snapshot, present or `null`, keeps ids unique per kind and groups before users |
| Dashboard.UserSnapshotKeepsInvariant | app/src/main/java/com/example/chatapp/DashboardActivity.kt:182-191 | a user snapshot, present or `null`, keeps ids unique per kind and groups before users |
| Dashboard.GroupsFirstByIndex | app/src/main/java/com/example/chatapp/DashboardActivity.kt:173 | in a groups-first roster no group follows a user |
| Dashboard.DashboardScreen.constructor | app/src/main/java/com/example/chatapp/DashboardActivity.kt:49-51 | the roster starts empty, the id hidden, and the short id is derived from the signed-in uid ("" when signed out) |
| Dashboard.DashboardScreen.CheckEmptyState | app/src/main/java/com/example/chatapp/DashboardActivity.kt:202-204 | the empty-state view is visible exactly when the roster is empty |
| Dashboard.DashboardScreen.OnOwnRecordChanged | app/src/main/java/com/example/chatapp/DashboardActivity.kt:161-165 | any change of the own node empties the roster and shows the empty state |
| Dashboard.DashboardScreen.OnGroupSnapshot | app/src/main/java/com/example/chatapp/DashboardActivity.kt:169-176 | the roster becomes the group-snapshot result; a null snapshot changes neither the roster nor the empty state; the roster invariant is kept |
| Dashboard.DashboardScreen.OnUserSnapshot | app/src/main/java/com/example/chatapp/DashboardActivity.kt:184-191 | the roster becomes the user-snapshot result; a null snapshot changes neither the roster nor the empty state; the roster invariant is kept |
| Dashboard.DashboardScreen.ToggleIdVisibility | app/src/main/java/com/example/chatapp/DashboardActivity.kt:77-80 | the eye button flips the id visibility |
| Dashboard.DashboardScreen.IdText | app/src/main/java/com/example/chatapp/DashboardActivity.kt:206-207 | the badge starts with "Kimliğim: ", then shows the short id when visible and five stars otherwise |
| Dashboard.AddFriendByShortId | app/src/main/java/com/example/chatapp/DashboardActivity.kt:211-226 | signed out, a short id holding a character the database refuses in a path (`child` throws and the app stops), unknown id and own id are each recognised exactly, in that order; otherwise the update holds exactly the two friendship edges, me→them and them→me, both `true` |
| Dashboard.RegisteredUserCanBeAdded | app/src/main/java/com/example/chatapp/DashboardActivity.kt:213-226 | after someone whose uid is valid path text registers, any typed input that parses to their short id finds them, and adding them writes both edges |
| Dashboard.RefusedPathStopsAddFriend | app/src/main/java/com/example/chatapp/DashboardActivity.kt:213 | a typed id such as "ab.cd" (five units, no whitespace at the ends, a refused character inside) passes the dialog's check and stops the app at the lookup, whatever is stored |
| Timeline.Label | app/src/main/java/com/example/chatapp/MessageAdapter.kt:55-74 | the label is "Bugün" for today, "Dün" for the day before, otherwise the long date; never empty |
| Timeline.HeadersDeletedGivesMessages | app/src/main/java/com/example/chatapp/MessageAdapter.kt:44-51 | deleting the headers from the rows gives back exactly the messages in order |
| Timeline.RowCount | app/src/main/java/com/example/chatapp/MessageAdapter.kt:44-51 | the rows are the messages plus one header for the first message and one per label change |
| Timeline.AssembleLayout | app/src/main/java/com/example/chatapp/MessageAdapter.kt:46-50 | each header is directly followed by a message with its label (no two headers in a row, no header last), and each message sits under a header or message of its own label |
| Timeline.NoMessagesNoRows | app/src/main/java/com/example/chatapp/MessageAdapter.kt:41-52 | no messages give no rows |
| Timeline.SingleMessage | app/src/main/java/com/example/chatapp/MessageAdapter.kt:41-52 | one message gives its header followed by itself |
| Timeline.AssembleFirstRow | app/src/main/java/com/example/chatapp/MessageAdapter.kt:44-49 | the rows of a non-empty chat open with the header of the first message's day |
| Timeline.AssembleLastRow | app/src/main/java/com/example/chatapp/MessageAdapter.kt:50 | the rows of a non-empty chat end with the last message |
| Timeline.RecurringDayGetsSecondHeader | app/src/main/java/com/example/chatapp/MessageAdapter.kt:46-49 | a day that recurs after another day's run gets a header again |
| Timeline.ViewType | app/src/main/java/com/example/chatapp/MessageAdapter.kt:76-83 | a header is DATE; a message is SENT exactly when its sender is the signed-in uid, RECEIVED otherwise (also when signed out) |
| Timeline.Parseable | app/src/main/java/com/example/chatapp/ChatActivity.kt:136-139 | the kept messages are exactly those of the converted children, in order, no more of them than children |
| Timeline.ParseableAppend | app/src/main/java/com/example/chatapp/ChatActivity.kt:136-139 | converting a snapshot split in two gives the kept messages of the first part followed by those of the second |
| Timeline.ParseableSingle | app/src/main/java/com/example/chatapp/ChatActivity.kt:136-139 | a converted child is kept; a `None` child, which stands for a value `getValue` cannot convert, is skipped |
| Timeline.MessageList.Refill | app/src/main/java/com/example/chatapp/ChatActivity.kt:135-139 | after a snapshot the list is exactly the converted children in order, with nothing left from before |
| Timeline.MessageAdapter.constructor | app/src/main/java/com/example/chatapp/MessageAdapter.kt:31-33 | the adapter's rows are built once, from the list as it is at creation |
| Timeline.MessageAdapter.UpdateDisplayList | app/src/main/java/com/example/chatapp/MessageAdapter.kt:40-53 | the lastDate loop produces exactly the assembled rows of the current messages |
| Timeline.MessageAdapter.UpdateData | app/src/main/java/com/example/chatapp/MessageAdapter.kt:35-38 | the rows are rebuilt from the current messages |
| Timeline.MessageAdapter.GetItemViewType | app/src/main/java/com/example/chatapp/MessageAdapter.kt:76-83 | a row's view type is DATE exactly for headers, SENT exactly for the signed-in user's messages and RECEIVED exactly for every other message |
| Timeline.MessageAdapter.ItemCount | app/src/main/java/com/example/chatapp/MessageAdapter.kt:127 | one row per entry of the display list, headers included |
| Chat.BeforeIrreflexive | app/src/main/java/com/example/chatapp/ChatActivity.kt:54 | no uid sorts before itself |
| Chat.BeforeTotal | app/src/main/java/com/example/chatapp/ChatActivity.kt:54 | two different uids are always ordered one way or the other |
| Chat.BeforeAsymmetric | app/src/main/java/com/example/chatapp/ChatActivity.kt:54 | two uids are never ordered both ways |
| Chat.RoomId | app/src/main/java/com/example/chatapp/ChatActivity.kt:54-58 | the room id is the two uids concatenated, the one that does not sort after the other first; its length is the sum |
| Chat.RoomIdSymmetric | app/src/main/java/com/example/chatapp/ChatActivity.kt:54-58 | both participants get the same room id |
| Chat.RoomIdNamesOnePair | app/src/main/java/com/example/chatapp/ChatActivity.kt:54-58 | with uids of one length, equal room ids mean the same pair of users |
| Chat.ChatRoomFor | app/src/main/java/com/example/chatapp/ChatActivity.kt:48-58 | there is no room exactly when either uid is null or empty; otherwise the room id of the two |
| Chat.OutgoingMessage | app/src/main/java/com/example/chatapp/ChatActivity.kt:76-79 | a message is produced exactly when the trimmed text is non-empty, carrying that text, the sender and the time |
| Chat.UnmatchWrites | app/src/main/java/com/example/chatapp/ChatActivity.kt:181-186 | the update deletes both friendship edges and the room, three distinct non-nested paths |
| Chat.UnmatchIsSymmetric | app/src/main/java/com/example/chatapp/ChatActivity.kt:181-186 | either friend unmatching sends the same update |
| Chat.ChatScreen.constructor | app/src/main/java/com/example/chatapp/ChatActivity.kt:54-72 | the screen holds the room id and an adapter over the still empty list, with no rows |
| Chat.ChatScreen.OnMessagesAsWritten | app/src/main/java/com/example/chatapp/ChatActivity.kt:134-141 | the list becomes the converted children while the adapter's rows stay as they were |
| Chat.ChatScreen.OnMessages | app/src/main/java/com/example/chatapp/ChatActivity.kt:134-141 | with the rows rebuilt: the list is the converted children and the rows are their assembly |
| Chat.ChatScreen.OnFriendEdge | app/src/main/java/com/example/chatapp/ChatActivity.kt:109-121 | the screen closes once the own friendship edge no longer exists |
| Chat.ChatScreen.SendWrites | app/src/main/java/com/example/chatapp/ChatActivity.kt:147-150 | nothing is written for blank text; otherwise only the new message under the room's push key |
| Chat.OpenChat | app/src/main/java/com/example/chatapp/ChatActivity.kt:43-58 | a screen exists exactly when the id guard yields a room, and it holds that room |
| Chat.StaleDirectChat | app/src/main/java/com/example/chatapp/ChatActivity.kt:140 | as written, a chat that loaded one message shows no row |
| Chat.RefreshedDirectChat | app/src/main/java/com/example/chatapp/GroupChatActivity.kt:180 | with the rows rebuilt, the message shows under its header |
| Members.MemberAdapter.Row | app/src/main/java/com/example/chatapp/MemberAdapter.kt:25-42 | a row shows the badge exactly for the admin and the remove button exactly when the viewer is the admin and the row is not |
| Members.MemberAdapter.ItemCount | app/src/main/java/com/example/chatapp/MemberAdapter.kt:59 | one row per member |
| Members.AdminCannotRemoveSelf | app/src/main/java/com/example/chatapp/MemberAdapter.kt:36-42 | a remove button never targets the viewer, and no row has both badge and button |
| Members.NonAdminSeesNoRemoveButton | app/src/main/java/com/example/chatapp/MemberAdapter.kt:37 | a viewer who is not the admin sees no remove button at all |
| Members.AdminSeesEveryOtherButton | app/src/main/java/com/example/chatapp/MemberAdapter.kt:30-42 | the admin sees a remove button on exactly the rows without the badge |
| GroupChat.RemoveMemberWrites | app/src/main/java/com/example/chatapp/GroupChatActivity.kt:126-129 | removal deletes both the group→member and member→group edges, two non-nested paths |
| GroupChat.RemoveMemberEffect | app/src/main/java/com/example/chatapp/GroupChatActivity.kt:121-129 | a removal offered by the sheet (viewer `auth.uid ?: ""` equal to the cached `groupAdminId ?: ""`, row not that admin) takes exactly that member out and keeps adminId; when the cached admin is the stored one, the admin stays a member |
| GroupChat.UncachedSheetRemovesAdmin | app/src/main/java/com/example/chatapp/GroupChatActivity.kt:121-123 | signed out before an admin is cached, the viewer "" matches the admin "": the sheet offers to remove the stored admin, and that removal leaves a group whose admin is not a member |
| GroupChat.LeaveWrites | app/src/main/java/com/example/chatapp/GroupChatActivity.kt:254-267 | the own link always goes; a group left empty is deleted with its chat; otherwise only the leaver's entry goes, and for a leaving admin adminId passes to a remaining member who is not the leaver |
| GroupChat.GroupChatScreen.constructor | app/src/main/java/com/example/chatapp/GroupChatActivity.kt:58-60 | no admin is cached yet, and the adapter over the empty list has no rows |
| GroupChat.GroupChatScreen.OnGroupSnapshot | app/src/main/java/com/example/chatapp/GroupChatActivity.kt:78-85 | a deleted group (no node) closes the screen; an existing one caches its admin |
| GroupChat.GroupChatScreen.OnMessages | app/src/main/java/com/example/chatapp/GroupChatActivity.kt:174-180 | the list is the converted children and the rows are their assembly |
| GroupChat.GroupChatScreen.DeleteMenuVisible | app/src/main/java/com/example/chatapp/GroupChatActivity.kt:208 | a signed-in user sees "delete" exactly when they are the cached admin |
| GroupChat.GroupChatScreen.MembersSheet | app/src/main/java/com/example/chatapp/GroupChatActivity.kt:121-124 | every member is listed under their name; the cached admin carries the badge; a signed-in viewer who is not the cached admin gets no remove button, the cached admin one on every other member's row; signed out with no admin cached, every row with a non-empty uid gets one |
| GroupChat.GroupChatScreen.SendWrites | app/src/main/java/com/example/chatapp/GroupChatActivity.kt:189-192 | nothing for blank text or when signed out; otherwise only the new message under the push key |
| GroupChat.GroupChatScreen.LeaveGroup | app/src/main/java/com/example/chatapp/GroupChatActivity.kt:248-267 | nothing when signed out or the group node does not exist; the own link is always deleted; a last member deletes the group and its chat; the cached admin hands adminId to a remaining member other than themselves; anyone else removes only their own entry and leaves the admin untouched |
| GroupChat.GroupChatScreen.LeaveGroupChecked | app/src/main/java/com/example/chatapp/GroupChatActivity.kt:261 | deciding on the fetched admin, leaving never produces a group whose admin is not a member |
| GroupChat.GroupChatScreen.DeleteGroup | app/src/main/java/com/example/chatapp/GroupChatActivity.kt:230-238 | every member's link, the group and the chat are deleted: \|members\|+2 non-nested deletions, and the group is gone |
| GroupChat.OpenGroupChat | app/src/main/java/com/example/chatapp/GroupChatActivity.kt:41-48 | no screen for a null or empty group id |
| GroupChat.StaleAdminLeaves | app/src/main/java/com/example/chatapp/GroupChatActivity.kt:261 | as written, an admin leaving before the group listener fired leaves a group whose admin is not a member |
| GroupChat.CheckedAdminLeaves | app/src/main/java/com/example/chatapp/GroupChatActivity.kt:261-263 | decided on the fetched group, the remaining member becomes admin |
| SelectFriend.SelectFriendAdapter.IsChecked | app/src/main/java/com/example/chatapp/SelectFriendAdapter.kt:42 | a row's checkbox shows whether its uid is ticked |
| SelectFriend.SelectFriendAdapter.Click | app/src/main/java/com/example/chatapp/SelectFriendAdapter.kt:44-49 | a click flips the row, adds or removes exactly its uid, and returns the new state |
| SelectFriend.SelectFriendAdapter.ItemCount | app/src/main/java/com/example/chatapp/SelectFriendAdapter.kt:52 | one row per listed friend |
| SelectFriend.ClickTwice | app/src/main/java/com/example/chatapp/SelectFriendAdapter.kt:44-49 | two clicks on a row restore the ticked set |
| CreateGroup.CreateGroupScreen.constructor | app/src/main/java/com/example/chatapp/CreateGroupActivity.kt:28-33 | the friend list and selection start empty, no group picture, colour #FFFFFF, and picker and selection agree |
| CreateGroup.CreateGroupScreen.OnSelectionChanged | app/src/main/java/com/example/chatapp/CreateGroupActivity.kt:103-105 | the callback adds the uid when selected and removes it otherwise; nothing else changes |
| CreateGroup.CreateGroupScreen.ClickFriend | app/src/main/java/com/example/chatapp/CreateGroupActivity.kt:103-105 | a picker click toggles the uid in the selection and keeps picker and selection in step |
| CreateGroup.CreateGroupScreen.OnFriendIdsChanged | app/src/main/java/com/example/chatapp/CreateGroupActivity.kt:114 | a friend-set change empties the list |
| CreateGroup.CreateGroupScreen.OnFriendLoaded | app/src/main/java/com/example/chatapp/CreateGroupActivity.kt:119-122 | a fetched friend is appended unless its uid is listed, an absent user node changes nothing; the list never holds a uid twice |
| CreateGroup.AddMemberById | app/src/main/java/com/example/chatapp/CreateGroupActivity.kt:133-136 | input failing the length check is ignored; an accepted short id holding a refused path character stops the app; any other short id is read, and it is the accepted id |
| CreateGroup.CreateGroupScreen.OnMemberFound | app/src/main/java/com/example/chatapp/CreateGroupActivity.kt:140-144 | a new user goes to index 0 and into the selection; a listed user or an absent user node changes nothing; no uid is listed twice |
| CreateGroup.CreateGroupScreen.OnMemberFoundSynced | app/src/main/java/com/example/chatapp/CreateGroupActivity.kt:140-144 | as above, and the new row is ticked in the picker, so the two selections stay equal |
| CreateGroup.CreateGroupScreen.UpdateColorSelection | app/src/main/java/com/example/chatapp/CreateGroupActivity.kt:81-82 | selecting a colour selects exactly that colour |
| CreateGroup.CreateGroupScreen.OnImagePicked | app/src/main/java/com/example/chatapp/CreateGroupActivity.kt:35-39 | an encoded picture becomes the group picture; a failed one changes nothing |
| CreateGroup.CreateGroupScreen.CreateGroup | app/src/main/java/com/example/chatapp/CreateGroupActivity.kt:152-164 | nothing for a blank name, an empty selection, no uid or no key; otherwise the group (members = selection + creator, admin = creator) and one `true` link per member, \|members\|+1 non-nested paths; the written group's admin is one of its members |
| CreateGroup.CollectMembers | app/src/main/java/com/example/chatapp/CreateGroupActivity.kt:157-159 | the member map is the creator and every selected uid, each mapped to true |
| CreateGroup.CreatedGroupAdminIsMember | app/src/main/java/com/example/chatapp/CreateGroupActivity.kt:157-161 | the created group's admin is one of its members |
| CreateGroup.SelectionDivergence | app/src/main/java/com/example/chatapp/CreateGroupActivity.kt:143 | as written, a user added by id is selected but shows unticked |
| CreateGroup.SelectionAgreement | app/src/main/java/com/example/chatapp/CreateGroupActivity.kt:143 | with the picker told, the added user shows ticked |
| Settings.SettingsScreen.constructor | app/src/main/java/com/example/chatapp/SettingsActivity.kt:27-28 | no picture picked yet and colour #FFFFFF selected; the name field is empty |
| Settings.SettingsScreen.UpdateColorSelection | app/src/main/java/com/example/chatapp/SettingsActivity.kt:73-74 | selecting a colour selects exactly that colour |
| Settings.SettingsScreen.OnImageEncoded | app/src/main/java/com/example/chatapp/SettingsActivity.kt:30-39 | an encoded picture becomes the one to save; a failed one changes nothing |
| Settings.SettingsScreen.OnUserLoaded | app/src/main/java/com/example/chatapp/SettingsActivity.kt:86-99 | the stored name fills the field; a stored colour from the palette is selected, any other leaves the selection as it was |
| Settings.SettingsScreen.EditName | app/src/main/java/com/example/chatapp/SettingsActivity.kt:134 | the name field holds what the user typed, which saveProfile reads back |
| Settings.ProfileUpdate | app/src/main/java/com/example/chatapp/SettingsActivity.kt:141-148 | the update writes the name and the colour, and the picture exactly when one was picked, each under /Users/uid, and nothing else |
| Settings.ProfileUpdateShape | app/src/main/java/com/example/chatapp/SettingsActivity.kt:141-148 | no path of the profile update lies inside another |
| Settings.ProfileUpdateEffect | app/src/main/java/com/example/chatapp/SettingsActivity.kt:141-149 | applied to any stored record the profile update sets name, colour and (if picked) picture, and no other field |
| Settings.SettingsScreen.SaveProfile | app/src/main/java/com/example/chatapp/SettingsActivity.kt:133-149 | nothing for a blank name or when signed out; otherwise the trimmed name and selected colour, and the picture exactly when one was picked; applied to any stored record it changes those fields and no other |
| Settings.SaveUnchangedProfile | app/src/main/java/com/example/chatapp/SettingsActivity.kt:93-99 | opening and saving straight away keeps the record, except that the name is trimmed and a colour outside the palette becomes #FFFFFF |

## Left out

- Listener registration, `get()`, `updateChildren` and their success and failure callbacks. Snapshots
  are parameters and updates are results; whether the database accepts an update is not modelled.
- Listener accumulation. The nested listeners at DashboardActivity.kt:168 and :183 are never
  removed, so ids that have left the roster can still fire. Each firing is modelled, but not which
  listeners exist.
- `Calendar`, `SimpleDateFormat` and the locale. `LocalCalendar` holds today's day number, a day
  function and a long-date function, all uninterpreted. The long date is only assumed to be
  non-empty.
- `.random()` in leaveGroup. It is a nondeterministic choice (`:|`) among the remaining members.
- Images: bitmap decoding, scaling, JPEG, Base64 and Glide. A picked picture is an optional string.
- UI: toasts, dialogs, bottom sheets, menus, window insets, scrolling, view holders and the
  `notifyDataSetChanged` redraws.
- ChatAdapter.kt is not part of this model. It only binds views.
- Sender names in group chats (MessageAdapter.kt:111-122). They need one database read per row.
- Loading the member sheet's users (GroupChatActivity.kt:140-157). The member list is a parameter.
- Account creation, the profile display name (RegisterActivity.kt:58, :75-77) and the dashboard's
  own name and picture (DashboardActivity.kt:132-156).
- `System.currentTimeMillis()` and push keys. Both are parameters.
- Text.Upper: only ASCII letters are upper-cased. Kotlin's `uppercase()` maps all of Unicode and can
  change the length (ß becomes SS), which would affect the five-unit length check.
- ShortIds.ShortIdOf: takes the first five characters, where Kotlin's `take(5)` takes five UTF-16
  code units. The two differ only for a uid with a character above U+FFFF among its first five;
  the uids the app receives are ASCII.
- Chat.Before: characters are compared by code point. Kotlin compares UTF-16 units, which differs
  only between supplementary characters and U+E000..U+FFFF.
- Paths are lists of segments. A uid or group id containing "/" would split into more segments in
  the app; that is not modelled. Nor are empty ids: where the app builds a path from an empty
  string (a signed-out `auth.uid ?: ""` gives "/Users/", an empty short id "/ShortIds/"), the
  database drops the empty segment and addresses the parent node, while the model keeps the empty
  segment as a path of its own. The characters the database refuses in a path ('.', '#', '$',
  '[', ']') are modelled only for typed short ids, the one place where a user's text reaches
  `child(...)`; uids and push keys are taken to be valid path text.
- Stored values of the wrong shape. `getValue(...)` returns `null` only for a node that does not
  exist. For a value it cannot convert, such as a string where a `Message` map belongs or a
  string `timestamp`, it throws `DatabaseException`, which no listener catches, so the app stops.
  That crash is not modelled. A message child given as `None` stands for such a value, and the
  model skips it instead. Everywhere else a `None` record means the node does not exist.
- Timestamps are unbounded integers. The app's `Long` arithmetic never overflows here.

## Findings

| source | as written | input that shows it | evidently intended | confidence | as-written member | corrected member |
|---|---|---|---|---|---|---|
| app/src/main/java/com/example/chatapp/ChatActivity.kt:140 | the message listener refills `messageList` and only calls `notifyDataSetChanged()`; the adapter's rows were built once, from the empty list | a direct chat whose snapshot holds one message: the list has 1 message, the adapter 0 rows | call `adapter.updateData()`, as GroupChatActivity.kt:180 does | high; not executed | Chat.StaleDirectChat | Chat.ChatScreen.OnMessages |
| app/src/main/java/com/example/chatapp/GroupChatActivity.kt:261 | succession is decided against the cached `groupAdminId`, which is null until the group listener first fires | group {alice, bob} with admin alice; alice leaves before the listener fired: only her entry is deleted and adminId stays "alice", no longer a member | compare with `group.adminId` of the group just fetched | medium; not executed | GroupChat.StaleAdminLeaves | GroupChat.GroupChatScreen.LeaveGroupChecked |
| app/src/main/java/com/example/chatapp/CreateGroupActivity.kt:143 | add-by-id puts the uid into `selectedUserIds` but not into the picker's `selectedUsers` (SelectFriendAdapter.kt:15) | add user u by short id: u will be a member of the group, but row 0 shows an empty checkbox | tick the new row in the picker as well | high; not executed | CreateGroup.SelectionDivergence | CreateGroup.CreateGroupScreen.OnMemberFoundSynced |
