# Sohbet friend, chat and listener bookkeeping, in Dafny

A model of the bookkeeping core of the Sohbet Android chat app, with proofs
about it:

- **`FirestoreService`** (`firebase_service.dfy`) models `FirebaseService`.
  - Cloud Firestore's `users`, `friend_requests`, `chats` and `messages`
    collections are maps from document id to document.
  - A second map models the Realtime Database nodes `chats/<chatId>` and
    `messages/<chatId>`.
  - The class `FirebaseService` holds both stores as fields. Its methods are
    the service's sequences of document writes:
    - user creation with the username check;
    - the friend-request lifecycle, and friend removal;
    - message sending and the last-message cache;
    - the history query.
  - A Firestore `update` of a missing document fails. The writes made before
    it stay in place.
- **`RealtimeService`** (`realtime_service.dfy`) models
  `FirebaseRealtimeService`.
  - The `friend_requests/<receiver>/<sender>` and `users/<user>` subtrees of
    the Realtime Database are nested maps.
  - A missing child is `None`. A user node with no field and no friend does
    not exist.
  - The readers walk the children in key order.
- **`Chat`** (`chat_manager.dfy`) models `ChatManager`.
  - It holds the duplicate-free listener registry and the broadcast over it.
  - It dispatches an already parsed WebSocket frame on its `type` field.
  - It applies the defaults of chat and typing frames.
  - It echoes a sent message locally.
  - Listener callbacks and socket sends are recorded as traces, so their order
    and number can be stated.
- **Shared modules**:
  - `Strings` models Kotlin's `String.compareTo` (`LexLess`) and the key order
    of query results and snapshot children (`SortedKeys`).
  - `Seqs` models `arrayRemove` (`Without`) and `reversed()` (`Reverse`).
  - `Models` holds the app's `User` and `Message` records.
  - `Wrappers` holds `Option` and `Result`.

Clocks (`Timestamp.now()`, `Date()`, `ServerValue.TIMESTAMP`,
`System.currentTimeMillis()`) are parameters. So are the ids that Firestore's
`add` and `UUID.randomUUID()` generate. A generated document id is new to its
collection, which is the one precondition the methods state.

## Model

| member | source | states |
|---|---|---|
| Strings.StartsWith | app/src/main/java/com/selimqueengh/sohbet/services/FirebaseService.kt:468-470 | `s.startsWith(prefix)`: the prefix is no longer than s and s begins with it |
| Strings.LexLess | app/src/main/java/com/selimqueengh/sohbet/services/FirebaseService.kt:378 | Kotlin's `<` on strings: decided by the first differing character, an empty string before any non-empty one |
| Strings.LexLessIsCompareTo | app/src/main/java/com/selimqueengh/sohbet/services/FirebaseService.kt:378 | LexLess holds exactly when a is a proper prefix of b, or a has the smaller character at the first index where the two differ, as `compareTo` is documented |
| Strings.LexLessIrreflexive | app/src/main/java/com/selimqueengh/sohbet/services/FirebaseService.kt:378 | no string sorts before itself under `String.compareTo` |
| Strings.LexLessAsymmetric | app/src/main/java/com/selimqueengh/sohbet/services/FirebaseService.kt:378 | if a sorts before b, b does not sort before a |
| Strings.LexLessTransitive | app/src/main/java/com/selimqueengh/sohbet/services/FirebaseService.kt:378 | the string order is transitive |
| Strings.LexLessTotal | app/src/main/java/com/selimqueengh/sohbet/services/FirebaseService.kt:661 | any two distinct strings are ordered one way or the other |
| Strings.SortedKeys | app/src/main/java/com/selimqueengh/sohbet/services/FirebaseRealtimeService.kt:73 | the children's keys are listed strictly ascending, each key of the node exactly once |
| Seqs.Without | app/src/main/java/com/selimqueengh/sohbet/services/FirebaseService.kt:369 | `arrayRemove(x)`: the result holds exactly the elements other than x, is no longer, equals the array when x is absent, and stays duplicate-free |
| Seqs.Reverse | app/src/main/java/com/selimqueengh/sohbet/services/FirebaseService.kt:537 | `reversed()`: same length, element i is element n-1-i of the input |
| FirestoreService.ChatId | app/src/main/java/com/selimqueengh/sohbet/services/FirebaseService.kt:378 | the chat id of two users is one id, `_`, then the other; the one that sorts first under `<` comes first |
| FirestoreService.ChatIdSymmetric | app/src/main/java/com/selimqueengh/sohbet/services/FirebaseService.kt:378 | the chat id of (a, b) equals the chat id of (b, a) |
| FirestoreService.ChatIdSmallerFirst | app/src/main/java/com/selimqueengh/sohbet/services/FirebaseService.kt:661 | the chat id is the smaller user id, `_`, then the larger, and those two parts are exactly the two users |
| FirestoreService.ChatIdInjective | app/src/main/java/com/selimqueengh/sohbet/services/FirebaseService.kt:661 | for user ids without `_`, equal chat ids mean the same pair of users, in either order |
| FirestoreService.ChatIdCollidesWithUnderscores | app/src/main/java/com/selimqueengh/sohbet/services/FirebaseService.kt:378 | with `_` inside user ids, the pairs ("a_b", "c") and ("a", "b_c") share one chat id |
| FirestoreService.MessageTypeFor | app/src/main/java/com/selimqueengh/sohbet/services/FirebaseService.kt:467-472 | "image", "video" or "audio" exactly when the MIME type starts with that prefix and a `/`, and "file" exactly when none of the three prefixes applies |
| FirestoreService.ArrayUnion | app/src/main/java/com/selimqueengh/sohbet/services/FirebaseService.kt:301 | `arrayUnion(x)`: the members are the old ones plus x, the old array is a prefix, nothing changes when x is present, and duplicate-freedom is kept |
| FirestoreService.ArrayUnionIdempotent | app/src/main/java/com/selimqueengh/sohbet/services/FirebaseService.kt:306 | a second `arrayUnion` of the same value changes nothing |
| FirestoreService.WithFriendship | app/src/main/java/com/selimqueengh/sohbet/services/FirebaseService.kt:298-307 | afterwards `to` lists exactly its old friends plus `from` and `from` lists exactly its old friends plus `to`; no other document changes, and only the friends fields of the two change |
| FirestoreService.WithFriendshipOnlyAdds | app/src/main/java/com/selimqueengh/sohbet/services/FirebaseService.kt:298-307 | acceptance removes no friend, and every friends array stays duplicate-free |
| FirestoreService.WithFriendshipIdempotent | app/src/main/java/com/selimqueengh/sohbet/services/FirebaseService.kt:298-307 | accepting a second time leaves the users collection as accepting once did |
| FirestoreService.WithoutFriendship | app/src/main/java/com/selimqueengh/sohbet/services/FirebaseService.kt:367-375 | afterwards `userId` lists exactly its old friends other than `friendId`, and `friendId` exactly its old friends other than `userId`; no other document changes, and only the two friends fields change |
| FirestoreService.WithoutFriendshipOnlyRemoves | app/src/main/java/com/selimqueengh/sohbet/services/FirebaseService.kt:367-375 | removal adds no friend, and every friends array stays duplicate-free |
| FirestoreService.RemoveUndoesAccept | app/src/main/java/com/selimqueengh/sohbet/services/FirebaseService.kt:367-375 | removing a friendship that acceptance (lines 298-307) created between two non-friends restores the users collection exactly |
| FirestoreService.PendingRequestExists | app/src/main/java/com/selimqueengh/sohbet/services/FirebaseService.kt:225-230 | the duplicate query: some request document goes from `from` to `to` and has status "pending" |
| FirestoreService.ReverseRequestDoesNotBlock | app/src/main/java/com/selimqueengh/sohbet/services/FirebaseService.kt:225-237 | in any store, adding a pending request from `to` to `from` under a fresh id makes that direction a duplicate, and leaves whether `from` to `to` is a duplicate exactly as it was |
| FirestoreService.IsIncoming | app/src/main/java/com/selimqueengh/sohbet/services/FirebaseService.kt:263-264 | the query filter of getIncomingFriendRequests: the request is addressed to the user and its status is "pending" |
| FirestoreService.FriendIdsOf | app/src/main/java/com/selimqueengh/sohbet/services/FirebaseService.kt:335-340 | the user's friends array, or no ids when the user document is missing |
| FirestoreService.KnownIds | app/src/main/java/com/selimqueengh/sohbet/services/FirebaseService.kt:340-355 | the ids of a friends array that have a user document: each kept id is one of the given ids and has a document, every given id with a document is kept, and the result is no longer than the array |
| FirestoreService.MessagesOf | app/src/main/java/com/selimqueengh/sohbet/services/FirebaseService.kt:514 | the ids of the message documents whose chatId is the chat |
| FirestoreService.Earlier | app/src/main/java/com/selimqueengh/sohbet/services/FirebaseService.kt:515 | the order of `orderBy("timestamp")`: the earlier timestamp first, and on equal timestamps the smaller document id |
| FirestoreService.EarlierTransitive | app/src/main/java/com/selimqueengh/sohbet/services/FirebaseService.kt:515 | the query's (timestamp, document id) order is transitive |
| FirestoreService.EarlierStrict | app/src/main/java/com/selimqueengh/sohbet/services/FirebaseService.kt:515 | that order is irreflexive and asymmetric, and it orders any two documents with different ids |
| FirestoreService.ToChatMessage | app/src/main/java/com/selimqueengh/sohbet/services/FirebaseService.kt:523-535 | the ChatMessage getMessages builds: the document id, then every stored field of the message document, the stored timestamp included (see "## Left out") |
| FirestoreService.NewestOf | app/src/main/java/com/selimqueengh/sohbet/services/FirebaseService.kt:515 | picks a member of the set that every other member is older than |
| FirestoreService.NewestMessages | app/src/main/java/com/selimqueengh/sohbet/services/FirebaseService.kt:513-517 | the descending, limited query returns min(limit, n) of the chat's n messages, newest first, each as stored, and every message it leaves out is older than all it returns |
| FirestoreService.SelectNext | app/src/main/java/com/selimqueengh/sohbet/services/FirebaseService.kt:515-516 | taking the newest remaining message keeps the page newest-first, with every remaining message older than the page |
| FirestoreService.HistoryIsReversedQuery | app/src/main/java/com/selimqueengh/sohbet/services/FirebaseService.kt:537 | reversing the newest-first page gives an oldest-first history that has the same size, the same messages and the same omitted-are-older property |
| FirestoreService.LastMessageUpdated | app/src/main/java/com/selimqueengh/sohbet/services/FirebaseService.kt:496-505 | the chat's lastMessage, lastMessageTimestamp and updatedAt are set, its participants and createdAt stay, other chats are untouched, and a missing chat leaves the collection as it was |
| FirestoreService.FirebaseService.CreateUser | app/src/main/java/com/selimqueengh/sohbet/services/FirebaseService.kt:77-111 | fails with UsernameTaken, changing nothing, exactly when some user document has the username; otherwise writes the online user with no friends. Unique usernames and duplicate-free friends arrays are kept |
| FirestoreService.FirebaseService.SendFriendRequest | app/src/main/java/com/selimqueengh/sohbet/services/FirebaseService.kt:220-258 | fails with RequestAlreadySent, changing nothing, exactly when a pending request in the same direction exists; otherwise adds exactly one pending request. Afterwards such a request exists, so a second send fails |
| FirestoreService.FirebaseService.GetIncomingFriendRequests | app/src/main/java/com/selimqueengh/sohbet/services/FirebaseService.kt:260-279 | returns exactly the pending requests addressed to the user, each with its document id, in id order |
| FirestoreService.FirebaseService.AcceptFriendRequest | app/src/main/java/com/selimqueengh/sohbet/services/FirebaseService.kt:281-317 | the request is marked accepted, then each user's array gains the other, then the pair's Realtime Database chat is written. A missing request or user document fails at that step, and the earlier writes stay. On success the request is accepted, both users list each other, and the chat exists |
| FirestoreService.FirebaseService.RejectFriendRequest | app/src/main/java/com/selimqueengh/sohbet/services/FirebaseService.kt:319-331 | deletes the request document and changes nothing else; deleting a missing document succeeds |
| FirestoreService.FirebaseService.GetFriends | app/src/main/java/com/selimqueengh/sohbet/services/FirebaseService.kt:333-362 | the returned ids are exactly KnownIds of the user's friends array, and each entry is the stored document of its id, carrying that id |
| FirestoreService.FirebaseService.RemoveFriend | app/src/main/java/com/selimqueengh/sohbet/services/FirebaseService.kt:364-387 | removes each user from the other's array, then deletes the chat and message nodes at the pair's chat id. A missing user document fails at that step. On success neither lists the other and both nodes are gone |
| FirestoreService.FirebaseService.SendMessage | app/src/main/java/com/selimqueengh/sohbet/services/FirebaseService.kt:431-458 | adds one text message, unread and undelivered, with empty media fields, then updates the chat's last-message cache; a failed cache update is ignored |
| FirestoreService.FirebaseService.SendMediaMessage | app/src/main/java/com/selimqueengh/sohbet/services/FirebaseService.kt:460-492 | like SendMessage, with the message type taken from the MIME type and the media URL and type stored |
| FirestoreService.FirebaseService.UpdateChatLastMessage | app/src/main/java/com/selimqueengh/sohbet/services/FirebaseService.kt:494-509 | the chats collection becomes LastMessageUpdated of the old one, and nothing else changes |
| FirestoreService.FirebaseService.GetMessages | app/src/main/java/com/selimqueengh/sohbet/services/FirebaseService.kt:511-544 | a limit of zero or less fails. Otherwise the result is the newest min(limit, n) messages of the chat, in strictly ascending (timestamp, id) order, each as stored, and every omitted message of the chat is older than all returned |
| FirestoreService.FirebaseService.GetLatestMessages | app/src/main/java/com/selimqueengh/sohbet/services/FirebaseService.kt:511 | getMessages with the default limit of 50 never fails, and returns the newest min(50, n) messages of the chat as GetMessages promises |
| FirestoreService.FirebaseService.CreateRealtimeChat | app/src/main/java/com/selimqueengh/sohbet/services/FirebaseService.kt:660-673 | returns the pair's chat id and writes, or overwrites, the chat node there; Firestore is unchanged |
| FirestoreService.FirebaseService.GetRealtimeChats | app/src/main/java/com/selimqueengh/sohbet/services/FirebaseService.kt:675-702 | returns exactly the chats whose participants include the user, each tagged with its key, in key order |
| RealtimeService.Exists | app/src/main/java/com/selimqueengh/sohbet/services/FirebaseRealtimeService.kt:138 | `snapshot.exists()` on a user node: some field is stored or the friends map is non-empty |
| RealtimeService.StatusOf | app/src/main/java/com/selimqueengh/sohbet/services/FirebaseRealtimeService.kt:76 | the status a request node is read with: its stored status, or "pending" when the status child is missing |
| RealtimeService.IsPending | app/src/main/java/com/selimqueengh/sohbet/services/FirebaseRealtimeService.kt:76-78 | the request node exists and its status, "pending" when missing, is "pending" |
| RealtimeService.NoEmptyRequests | app/src/main/java/com/selimqueengh/sohbet/services/FirebaseRealtimeService.kt:73 | every request child holds a timestamp or a status, since the database stores no empty node; part of the service's Valid, which every request write keeps |
| RealtimeService.FriendFlag | app/src/main/java/com/selimqueengh/sohbet/services/FirebaseRealtimeService.kt:133-135 | friends/<friend> under the user holds true; a missing user or child counts as false |
| RealtimeService.IsFriendListed | app/src/main/java/com/selimqueengh/sohbet/services/FirebaseRealtimeService.kt:133-138 | getFriends lists the friend: the flag is true and the friend's user node exists |
| RealtimeService.WithRequest | app/src/main/java/com/selimqueengh/sohbet/services/FirebaseRealtimeService.kt:58 | `setValue` at friend_requests/<receiver>/<sender>: that child becomes the new node, the receiver's other children are kept |
| RealtimeService.WithoutRequest | app/src/main/java/com/selimqueengh/sohbet/services/FirebaseRealtimeService.kt:116 | `removeValue` at friend_requests/<receiver>/<sender>: that child is dropped, the receiver's other children are kept |
| RealtimeService.AcceptedNode | app/src/main/java/com/selimqueengh/sohbet/services/FirebaseRealtimeService.kt:99 | `setValue("accepted")` on the status child only: the status becomes "accepted", the stored timestamp stays, and a missing node gets no timestamp |
| RealtimeService.WithFriendFlag | app/src/main/java/com/selimqueengh/sohbet/services/FirebaseRealtimeService.kt:102 | one `setValue(true)` at users/<user>/friends/<friend>: that flag becomes true, and the user's other fields and flags stay |
| RealtimeService.Befriended | app/src/main/java/com/selimqueengh/sohbet/services/FirebaseRealtimeService.kt:102-103 | the two `setValue(true)` writes: friends[receiver][sender], then friends[sender][receiver] |
| RealtimeService.FriendUser | app/src/main/java/com/selimqueengh/sohbet/services/FirebaseRealtimeService.kt:139-147 | the User getFriends builds: the friend id, status ONLINE, username and displayName defaulting to "", avatarUrl the stored value or "" when missing, isOnline only when stored true, lastSeen the stored value or 0 when missing |
| RealtimeService.SendOverwrites | app/src/main/java/com/selimqueengh/sohbet/services/FirebaseRealtimeService.kt:53-58 | a sent request is pending whatever was stored there before, an accepted one included, and no other request node changes |
| RealtimeService.RejectRemovesOnlyThatRequest | app/src/main/java/com/selimqueengh/sohbet/services/FirebaseRealtimeService.kt:116 | after removal the node is gone and the sender is not pending; every other request node is unchanged |
| RealtimeService.BefriendedSetsBothFlags | app/src/main/java/com/selimqueengh/sohbet/services/FirebaseRealtimeService.kt:102-103 | both friend flags are true afterwards, and every other flag is as before |
| RealtimeService.BefriendedKeepsSymmetry | app/src/main/java/com/selimqueengh/sohbet/services/FirebaseRealtimeService.kt:102-103 | if every friend flag had its mirror before acceptance, it has one after |
| RealtimeService.AcceptRequestIdempotent | app/src/main/java/com/selimqueengh/sohbet/services/FirebaseRealtimeService.kt:99 | marking a request accepted a second time changes nothing |
| RealtimeService.BefriendedIdempotent | app/src/main/java/com/selimqueengh/sohbet/services/FirebaseRealtimeService.kt:102-103 | setting both friend flags a second time changes nothing |
| RealtimeService.AcceptedIsNotPending | app/src/main/java/com/selimqueengh/sohbet/services/FirebaseRealtimeService.kt:99 | an accepted request no longer counts as pending |
| RealtimeService.CreateUserBreaksSymmetry | app/src/main/java/com/selimqueengh/sohbet/services/FirebaseRealtimeService.kt:164-173 | rewriting an existing user's node drops their friends map and leaves their friends' mirror flags dangling |
| RealtimeService.FirebaseRealtimeService.SendFriendRequest | app/src/main/java/com/selimqueengh/sohbet/services/FirebaseRealtimeService.kt:51-64 | node [to][from] becomes a pending request with the given timestamp, replacing what was there, and no other node changes |
| RealtimeService.FirebaseRealtimeService.GetIncomingFriendRequests | app/src/main/java/com/selimqueengh/sohbet/services/FirebaseRealtimeService.kt:67-93 | one entry per child of [user] whose status is pending or missing, in key order. The senderId is the child key, the timestamp defaults to 0 and the status is "pending" |
| RealtimeService.FirebaseRealtimeService.AcceptFriendRequest | app/src/main/java/com/selimqueengh/sohbet/services/FirebaseRealtimeService.kt:96-110 | sets [r][s].status to accepted and keeps its timestamp; creates the node if missing. Sets friends[r][s] and friends[s][r]; the request is then not pending and friendship stays symmetric |
| RealtimeService.FirebaseRealtimeService.RejectFriendRequest | app/src/main/java/com/selimqueengh/sohbet/services/FirebaseRealtimeService.kt:113-122 | removes exactly node [r][s]; users and every other request node are unchanged |
| RealtimeService.FirebaseRealtimeService.GetFriends | app/src/main/java/com/selimqueengh/sohbet/services/FirebaseRealtimeService.kt:125-159 | exactly the friend keys whose flag is true and whose user node exists, in key order, each built by FriendUser |
| RealtimeService.FirebaseRealtimeService.CreateUser | app/src/main/java/com/selimqueengh/sohbet/services/FirebaseRealtimeService.kt:162-179 | the user node becomes username, displayName, avatar "", online, lastSeen now and no friends, whatever it held before |
| RealtimeService.FirebaseRealtimeService.UpdateUserStatus | app/src/main/java/com/selimqueengh/sohbet/services/FirebaseRealtimeService.kt:182-195 | only isOnline and lastSeen of the user change; username, displayName, avatarUrl, friends and all flags stay |
| Chat.StringField | app/src/main/java/com/selimqueengh/sohbet/chat/ChatManager.kt:83 | `as? String`: a value exactly when the key holds a string, and it is that string |
| Chat.BoolField | app/src/main/java/com/selimqueengh/sohbet/chat/ChatManager.kt:113 | `as? Boolean`: a value exactly when the key holds a boolean |
| Chat.NumberField | app/src/main/java/com/selimqueengh/sohbet/chat/ChatManager.kt:105 | `as? Number`: a value exactly when the key holds a number |
| Chat.DoubleToLong | app/src/main/java/com/selimqueengh/sohbet/chat/ChatManager.kt:105 | `toLong()` stays within Long's range, rounds toward zero inside it, and saturates at each bound outside it |
| Chat.DoubleToLongExact | app/src/main/java/com/selimqueengh/sohbet/chat/ChatManager.kt:105 | a whole-millisecond timestamp in range converts exactly |
| Chat.Broadcast | app/src/main/java/com/selimqueengh/sohbet/chat/ChatManager.kt:140-158 | one delivery per registered listener, in registration order, all of the same event |
| Chat.BroadcastReachesEachOnce | app/src/main/java/com/selimqueengh/sohbet/chat/ChatManager.kt:140-158 | over a duplicate-free registry, a broadcast reaches the listeners in registration order: each registered one exactly once, and no other |
| Chat.RemoveFirst | app/src/main/java/com/selimqueengh/sohbet/chat/ChatManager.kt:137 | `MutableList.remove`: drops the first occurrence and keeps the rest in order; removing an absent listener changes nothing |
| Chat.RemoveFirstOfDistinct | app/src/main/java/com/selimqueengh/sohbet/chat/ChatManager.kt:136-138 | on a duplicate-free registry the listener is gone afterwards, the registry stays duplicate-free, and the result is the registry without that listener |
| Chat.FrameMessage | app/src/main/java/com/selimqueengh/sohbet/chat/ChatManager.kt:98-109 | not sent by the user; text from "content" and sender from "sender", each defaulting to "", and recipient from "recipient". The timestamp is the converted number, or the clock when absent; the message is unread text |
| Chat.TypingEvent | app/src/main/java/com/selimqueengh/sohbet/chat/ChatManager.kt:111-117 | no event exactly when "sender" holds no string; otherwise isTyping is true only when stored true |
| Chat.Dispatch | app/src/main/java/com/selimqueengh/sohbet/chat/ChatManager.kt:83-90 | "message", "typing", "user_list" and "user_status" each select their own event; any other or missing type gives none, and so does a typing frame without a sender |
| Chat.LocalEcho | app/src/main/java/com/selimqueengh/sohbet/chat/ChatManager.kt:64-71 | the local copy is sent by the user and carries the text and recipient; its sender is the current user's name, or "" when there is none; it is unread and undelivered text with no media URL |
| Chat.ChatManager.constructor | app/src/main/java/com/selimqueengh/sohbet/chat/ChatManager.kt:31-35 | no socket, no current user, no online users, no listeners |
| Chat.ChatManager.Connect | app/src/main/java/com/selimqueengh/sohbet/chat/ChatManager.kt:37-53 | replaces the socket with a new socket, distinct from every earlier one, that is not yet open; the old socket is not closed, and nothing else changes |
| Chat.ChatManager.Disconnect | app/src/main/java/com/selimqueengh/sohbet/chat/ChatManager.kt:55-58 | drops the socket; nothing else changes |
| Chat.ChatManager.Notify | app/src/main/java/com/selimqueengh/sohbet/chat/ChatManager.kt:140-158 | appends Broadcast of the event over the registry to the deliveries, and nothing else changes |
| Chat.ChatManager.OnConnectionStatusChanged | app/src/main/java/com/selimqueengh/sohbet/chat/ChatManager.kt:45-47 | a report from socket k sets the open flag of the current socket only when it is socket k, so a report from a replaced socket changes nothing; every listener is told, in order, either way |
| Chat.ChatManager.SendMessage | app/src/main/java/com/selimqueengh/sohbet/chat/ChatManager.kt:60-74 | with an open socket, or with none, sends when there is a socket and then always broadcasts the local echo: sent by the user, sender "". A socket that is not open throws before the echo |
| Chat.ChatManager.SendTypingStatus | app/src/main/java/com/selimqueengh/sohbet/chat/ChatManager.kt:76-78 | sends when the socket is open, does nothing without a socket, fails when the socket is not open, and notifies no one |
| Chat.ChatManager.HandleIncomingMessage | app/src/main/java/com/selimqueengh/sohbet/chat/ChatManager.kt:80-96 | an unparsable frame notifies no one; a parsed frame broadcasts the event Dispatch selects, or nothing |
| Chat.ChatManager.AddChatListener | app/src/main/java/com/selimqueengh/sohbet/chat/ChatManager.kt:130-134 | appends the listener unless present, when the registry is unchanged; the registry stays duplicate-free |
| Chat.ChatManager.RemoveChatListener | app/src/main/java/com/selimqueengh/sohbet/chat/ChatManager.kt:136-138 | drops the listener's first occurrence, the others keep their order; on a duplicate-free registry the listener is gone entirely |

## Left out

- The Firebase SDK's asynchrony is not modelled: `await`, coroutines, and failures of the network or the backend. Each operation is one atomic step on the stores. Only the failures the stores themselves cause are modelled: an `update` of a missing document, a duplicate, a non-positive limit.
- `removeFriend`'s two `removeValue` calls and `createRealtimeChat`'s `setValue` are not awaited in the source. The model applies them at once.
- The authentication wrappers are not modelled. They pass straight through to Firebase Auth: `signInAnonymously`, `registerWithEmailPassword`, `signInWithEmailPassword`, `getCurrentUser`, `signOut`.
- Several other `FirebaseService` members are not part of this model. Most are single SDK reads or listeners with nothing to state beyond the SDK's own behaviour: `updateUserStatus`, `getUsers`, `searchUserByUsername`, `getUserById`, `createChat`, `getChats`, `updateFCMToken`, `listenToMessages`, `listenToUserStatus`, `sendRealtimeMessage` and `listenToRealtimeMessages`.
- `FirebaseRealtimeService`'s `searchUserByUsername`, `listenToFriendRequests` and `listenToFriends` are not part of this model, for the same reason.
- `getRealtimeChats` is a snapshot listener that calls back with the filtered list. The model computes that list for one snapshot. The callback and the empty list it passes on cancellation are not modelled.
- FirestoreService.FirebaseService.GetFriends: the model returns the stored user documents with their ids and never fails. The source turns each into a `User` with `toObject`. That conversion is not modelled, and it matters. `createUser` stores `lastSeen` as a `Timestamp`, while `User.lastSeen` is a `Long`, so `toObject` throws on every friend document that `createUser` wrote. The catch then turns the whole call into `Result.failure`. In the source, getFriends therefore fails for any user with at least one such friend. `getUsers` works around the same conversion with a hand-built fallback.
- FirestoreService.FirebaseService.GetMessages: documents are typed, so the defaults the source applies to missing or mistyped fields (`as? String ?: ""` and the like) are not modelled. Stored timestamps are integers; the next line says what the source returns for them.
- FirestoreService.ToChatMessage: returns the stored timestamp. In the source it would be 0. `sendMessage` and `sendMediaMessage` store `Date()`, which Firestore keeps as a `Timestamp`, and `doc.data` hands back a `com.google.firebase.Timestamp`, not a `java.util.Date`. So `(data["timestamp"] as? Date)?.time ?: 0L` at FirebaseService.kt:532 yields 0 for every message, and the chat screen shows that 0. The order of the result is not affected, because the query sorts on the stored timestamp on the server. FirestoreService.FirebaseService.GetMessages and GetLatestMessages inherit this: their "each as stored" keeps timestamps the source returns as 0.
- FirestoreService.ToChatMessage: the model's `ChatMessage` record follows the constructor call in `getMessages` (FirebaseService.kt:523-535), not the imported class in models/ChatMessage.kt. The two disagree:
  - the call passes a `String` as `messageType` (:529) and a `mediaType` argument (:531);
  - the class declares `messageType: MessageType` and has no `mediaType` parameter.

  So the source does not compile there as written. The model's record is the 11 fields of the call, with string `messageType` and `mediaType`. It leaves out the class's `replyToMessageId`, `mediaFileName`, `isEdited` and `editedAt`, which that call would leave at their defaults.
- Clock reads within one operation are merged into a single instant `now`:
  - `sendMessage`'s and `sendMediaMessage`'s `Date()` for the message, and the two `Date()` calls of `updateChatLastMessage` that follow;
  - `createUser`'s two `Timestamp.now()` calls for `lastSeen` and `createdAt`;
  - `createRealtimeChat`'s two `System.currentTimeMillis()` calls for `createdAt` and `updatedAt`.

  In the source these may differ by the time that passes between the calls.
- FirestoreService.FirebaseService.GetIncomingFriendRequests: each entry is the typed request document with its id. The source returns a generic field map with `requestId` added.
- Firestore and Realtime Database key order is modelled as plain lexicographic order on keys. Realtime Database puts integer-like keys first, in numeric order; that is not modelled. String order compares characters, not UTF-16 code units as Kotlin does, so strings with characters outside the Basic Multilingual Plane may compare differently.
- In the Realtime Database model, values have the types the service writes. A value of another type, such as a non-boolean friend flag, makes the SDK's `getValue` throw; that is not modelled.
- Chat.ChatManager.HandleIncomingMessage takes the frame already parsed into a JSON object. Gson parsing is not modelled; a frame that does not parse to an object is `None`. Gson's lenient `NaN` and `Infinity` are not modelled, since numbers are reals.
- What a listener does in its callback is not modelled. That includes throwing, which would stop `handleIncomingMessage`'s broadcast. It also includes changing the registry during a broadcast, which Kotlin's `forEach` would reject.
- The socket is modelled by its identity, its username and whether it is open. Its open and close reports are inputs, so one can come at any time: after `disconnect`, or from a socket that a later `connect` replaced. The rest of `ChatWebSocket` is not part of this model:
  - the text of the frames it builds;
  - the login frame it sends when it opens;
  - the server's echo.
- The `getInstance` double-checked-locking singleton and the Android `Context` are not modelled.

## Notes

- The chat id joins the two user ids with `_`. It is injective only for user ids without `_` (`ChatIdInjective`); with `_` inside ids, two pairs can share a chat (`ChatIdCollidesWithUnderscores`). Firebase user ids contain no `_`.
- `FirebaseRealtimeService.createUser` rewrites the whole user node. For an existing user this drops their friends (`CreateUserBreaksSymmetry`).
- `FirebaseService.acceptFriendRequest` writes the chat to the Realtime Database. `sendMessage` refreshes the last-message cache of a Firestore chat document, which `acceptFriendRequest` never creates, so for such chats the cache update fails and is ignored.
