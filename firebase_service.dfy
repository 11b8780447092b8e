/** FirebaseService.kt: the friend graph, chats and messages of the app, kept
    in Cloud Firestore (collections `users`, `friend_requests`, `chats`,
    `messages`) and, for the chats created on acceptance, in the Realtime
    Database (nodes `chats/<chatId>` and `messages/<chatId>`).

    Each collection is a map from document id to document. Clocks and the ids
    that Firestore's `add` generates are parameters. A Firestore `update` of a
    missing document fails; the writes made before it stay in place. */
module FirestoreService {
  import opened Wrappers
  import opened Strings
  import opened Seqs

  /** The page size getMessages uses when the caller gives none. */
  const DefaultMessageLimit: int := 50

  // ----- Firestore documents -----

  datatype UserDoc = UserDoc(
    id: string,
    username: string,
    displayName: string,
    avatarUrl: string,
    status: string,
    lastSeen: int,
    isOnline: bool,
    friends: seq<string>,
    createdAt: int)

  datatype FriendRequestDoc = FriendRequestDoc(
    fromUserId: string,
    toUserId: string,
    status: string,
    timestamp: int)

  datatype ChatDoc = ChatDoc(
    participants: seq<string>,
    lastMessage: string,
    lastMessageTimestamp: int,
    createdAt: int,
    updatedAt: Option<int>)

  datatype MessageDoc = MessageDoc(
    chatId: string,
    senderId: string,
    senderUsername: string,
    content: string,
    messageType: string,
    mediaUrl: string,
    mediaType: string,
    timestamp: int,
    isRead: bool,
    isDelivered: bool)

  datatype Firestore = Firestore(
    users: map<string, UserDoc>,
    friendRequests: map<string, FriendRequestDoc>,
    chats: map<string, ChatDoc>,
    messages: map<string, MessageDoc>)

  // ----- Realtime Database nodes written by this class -----

  datatype RealtimeChat = RealtimeChat(
    participants: seq<string>,
    lastMessage: string,
    lastMessageTimestamp: int,
    createdAt: int)

  datatype RealtimeMessage = RealtimeMessage(
    senderId: string,
    senderUsername: string,
    content: string,
    messageType: string,
    timestamp: int,
    isRead: bool,
    isDelivered: bool)

  datatype RealtimeDatabase = RealtimeDatabase(
    chats: map<string, RealtimeChat>,
    messages: map<string, map<string, RealtimeMessage>>)

  // ----- Results -----

  datatype Failure =
    | UsernameTaken                                  // "Bu kullanıcı adı zaten kullanılıyor"
    | RequestAlreadySent                             // "Bu kullanıcıya zaten istek gönderilmiş"
    | NoSuchDocument(collection: string, id: string) // an `update` of a missing document
    | InvalidLimit(limit: int)                       // a query limit that is not positive

  /** A friend request document with its id added as `requestId`. */
  datatype TaggedRequest = TaggedRequest(requestId: string, request: FriendRequestDoc)

  /** A Realtime Database chat with its key added as `chatId`. */
  datatype TaggedChat = TaggedChat(chatId: string, chat: RealtimeChat)

  /** A message as getMessages hands it to the chat screen. */
  datatype ChatMessage = ChatMessage(
    id: string,
    chatId: string,
    senderId: string,
    senderUsername: string,
    content: string,
    messageType: string,
    mediaUrl: string,
    mediaType: string,
    timestamp: int,
    isRead: bool,
    isDelivered: bool)

  // ----- Chat identity -----

  /** The chat id of two users, as createRealtimeChat and removeFriend derive it:
      one id, `_`, the other. */
  function ChatId(a: string, b: string): (r: string)
    ensures r == a + "_" + b || r == b + "_" + a
  {
    if LexLess(a, b) then a + "_" + b else b + "_" + a
  }

  function Smaller(a: string, b: string): string {
    if LexLess(b, a) then b else a
  }

  function Larger(a: string, b: string): string {
    if LexLess(b, a) then a else b
  }

  /** Both orders of the pair name the same chat. */
  lemma ChatIdSymmetric(a: string, b: string)
    ensures ChatId(a, b) == ChatId(b, a)
  {
    LexLessAsymmetric(a, b);
    LexLessTotal(a, b);
  }

  /** The chat id is the lexicographically smaller user id, `_`, then the larger. */
  lemma ChatIdSmallerFirst(a: string, b: string)
    ensures ChatId(a, b) == Smaller(a, b) + "_" + Larger(a, b)
    ensures multiset{Smaller(a, b), Larger(a, b)} == multiset{a, b}
    ensures !LexLess(Larger(a, b), Smaller(a, b))
  {
    LexLessAsymmetric(a, b);
    LexLessTotal(a, b);
  }

  lemma {:induction false} SplitAtUnderscore(x: string, y: string, x': string, y': string)
    requires '_' !in x && '_' !in x'
    requires x + "_" + y == x' + "_" + y'
    ensures x == x' && y == y'
  {
    var s, s' := x + "_" + y, x' + "_" + y';
    assert s[|x|] == '_' && s'[|x'|] == '_';
    assert |x| == |x'|;
    assert x == s[..|x|] && x' == s'[..|x'|];
    assert y == s[|x| + 1..] && y' == s'[|x'| + 1..];
  }

  /** For user ids without `_` (Firebase user ids are alphanumeric) the chat id
      determines the pair of users. */
  lemma ChatIdInjective(a: string, b: string, c: string, d: string)
    requires '_' !in a && '_' !in b && '_' !in c && '_' !in d
    requires ChatId(a, b) == ChatId(c, d)
    ensures (a == c && b == d) || (a == d && b == c)
  {
    ChatIdSmallerFirst(a, b);
    ChatIdSmallerFirst(c, d);
    SplitAtUnderscore(Smaller(a, b), Larger(a, b), Smaller(c, d), Larger(c, d));
  }

  /** With `_` inside the ids, two different pairs share one chat id. */
  lemma ChatIdCollidesWithUnderscores()
    ensures ChatId("a_b", "c") == ChatId("a", "b_c")
  {
    assert LexLess("a_b", "c") && LexLess("a", "b_c");
  }

  // ----- Media messages -----

  /** The `messageType` sendMediaMessage stores for a MIME type. */
  function MessageTypeFor(mediaType: string): (kind: string)
    ensures kind in {"image", "video", "audio", "file"}
    ensures kind == "image" <==> StartsWith(mediaType, "image/")
    ensures kind == "video" <==> StartsWith(mediaType, "video/")
    ensures kind == "audio" <==> StartsWith(mediaType, "audio/")
    ensures kind == "file" <==>
      !StartsWith(mediaType, "image/") && !StartsWith(mediaType, "video/") && !StartsWith(mediaType, "audio/")
  {
    if StartsWith(mediaType, "image/") then "image"
    else if StartsWith(mediaType, "video/") then "video"
    else if StartsWith(mediaType, "audio/") then "audio"
    else "file"
  }

  // ----- Array fields -----

  /** `FieldValue.arrayUnion(x)` on an array field. */
  function ArrayUnion(s: seq<string>, x: string): (r: seq<string>)
    ensures forall y :: y in r <==> y in s || y == x
    ensures |s| <= |r| <= |s| + 1 && r[..|s|] == s
    ensures x in s ==> r == s
    ensures NoDuplicates(s) ==> NoDuplicates(r)
  {
    if x in s then s else s + [x]
  }

  lemma ArrayUnionIdempotent(s: seq<string>, x: string)
    ensures ArrayUnion(ArrayUnion(s, x), x) == ArrayUnion(s, x)
  {
  }

  function AddFriend(doc: UserDoc, friendId: string): UserDoc {
    doc.(friends := ArrayUnion(doc.friends, friendId))
  }

  function DropFriend(doc: UserDoc, friendId: string): UserDoc {
    doc.(friends := Without(doc.friends, friendId))
  }

  predicate FriendListsDistinct(users: map<string, UserDoc>) {
    forall id :: id in users ==> NoDuplicates(users[id].friends)
  }

  predicate UsernamesUnique(users: map<string, UserDoc>) {
    forall i, j :: i in users && j in users && i != j ==> users[i].username != users[j].username
  }

  /** The users collection after acceptFriendRequest's two arrayUnion updates:
      `to` gains `from`, then `from` gains `to`. */
  function WithFriendship(users: map<string, UserDoc>, from: string, to: string): (r: map<string, UserDoc>)
    requires from in users && to in users
    ensures r.Keys == users.Keys
    ensures from in r[to].friends && to in r[from].friends
    ensures forall y :: y in r[to].friends <==> y in users[to].friends || y == from
    ensures forall y :: y in r[from].friends <==> y in users[from].friends || y == to
    ensures forall id :: id in users && id != from && id != to ==> r[id] == users[id]
    ensures forall id :: id in users ==> r[id].(friends := users[id].friends) == users[id]
  {
    var afterTo := users[to := AddFriend(users[to], from)];
    afterTo[from := AddFriend(afterTo[from], to)]
  }

  /** Acceptance only adds to friends arrays and keeps them duplicate-free. */
  lemma WithFriendshipOnlyAdds(users: map<string, UserDoc>, from: string, to: string)
    requires from in users && to in users
    ensures forall id, y :: id in users && y in users[id].friends ==> y in WithFriendship(users, from, to)[id].friends
    ensures FriendListsDistinct(users) ==> FriendListsDistinct(WithFriendship(users, from, to))
  {
    var r := WithFriendship(users, from, to);
    forall id | id in users && id in {from, to}
      ensures forall y :: y in users[id].friends ==> y in r[id].friends
      ensures NoDuplicates(users[id].friends) ==> NoDuplicates(r[id].friends)
    {
      var afterTo := users[to := AddFriend(users[to], from)];
      assert r[id] == if id == from then AddFriend(afterTo[from], to) else afterTo[id];
    }
  }

  /** Accepting a second time adds nothing to the friends arrays. */
  lemma WithFriendshipIdempotent(users: map<string, UserDoc>, from: string, to: string)
    requires from in users && to in users
    ensures WithFriendship(WithFriendship(users, from, to), from, to) == WithFriendship(users, from, to)
  {
    var once := WithFriendship(users, from, to);
    var twice := WithFriendship(once, from, to);
    forall id | id in once
      ensures twice[id] == once[id]
    {
      if id == from || id == to {
        assert from in once[to].friends && to in once[from].friends;
      }
    }
  }

  /** The users collection after removeFriend's two arrayRemove updates. */
  function WithoutFriendship(users: map<string, UserDoc>, userId: string, friendId: string): (r: map<string, UserDoc>)
    requires userId in users && friendId in users
    ensures r.Keys == users.Keys
    ensures friendId !in r[userId].friends && userId !in r[friendId].friends
    ensures forall y :: y in r[userId].friends <==> y in users[userId].friends && y != friendId
    ensures forall y :: y in r[friendId].friends <==> y in users[friendId].friends && y != userId
    ensures forall id :: id in users && id != userId && id != friendId ==> r[id] == users[id]
    ensures forall id :: id in users ==> r[id].(friends := users[id].friends) == users[id]
  {
    var afterUser := users[userId := DropFriend(users[userId], friendId)];
    afterUser[friendId := DropFriend(afterUser[friendId], userId)]
  }

  /** Removal only takes from friends arrays and keeps them duplicate-free. */
  lemma WithoutFriendshipOnlyRemoves(users: map<string, UserDoc>, userId: string, friendId: string)
    requires userId in users && friendId in users
    ensures forall id, y :: id in users && y in WithoutFriendship(users, userId, friendId)[id].friends ==> y in users[id].friends
    ensures FriendListsDistinct(users) ==> FriendListsDistinct(WithoutFriendship(users, userId, friendId))
  {
    var r := WithoutFriendship(users, userId, friendId);
    forall id | id in users && id in {userId, friendId}
      ensures forall y :: y in r[id].friends ==> y in users[id].friends
      ensures NoDuplicates(users[id].friends) ==> NoDuplicates(r[id].friends)
    {
      var afterUser := users[userId := DropFriend(users[userId], friendId)];
      assert r[id] == if id == friendId then DropFriend(afterUser[friendId], userId) else afterUser[id];
    }
  }

  /** Removing a friendship undoes what accepting it added, when the two users
      were not friends before. */
  lemma RemoveUndoesAccept(users: map<string, UserDoc>, from: string, to: string)
    requires from in users && to in users && from != to
    requires from !in users[to].friends && to !in users[from].friends
    ensures WithoutFriendship(WithFriendship(users, from, to), from, to) == users
  {
    var accepted := WithFriendship(users, from, to);
    WithFriendshipUnfold(users, from, to);
    WithoutFriendshipUnfold(accepted, from, to);
    DropUndoesAdd(users[to], from);
    DropUndoesAdd(users[from], to);
    MapRestore(users, from, to, AddFriend(users[to], from), AddFriend(users[from], to));
  }

  lemma MapRestore(users: map<string, UserDoc>, from: string, to: string, d1: UserDoc, d2: UserDoc)
    requires from in users && to in users && from != to
    ensures users[to := d1][from := d2][from := users[from]][to := users[to]] == users
  {
  }

  lemma WithFriendshipUnfold(users: map<string, UserDoc>, from: string, to: string)
    requires from in users && to in users && from != to
    ensures WithFriendship(users, from, to) == users[to := AddFriend(users[to], from)][from := AddFriend(users[from], to)]
  {
  }

  lemma WithoutFriendshipUnfold(users: map<string, UserDoc>, userId: string, friendId: string)
    requires userId in users && friendId in users && userId != friendId
    ensures WithoutFriendship(users, userId, friendId) == users[userId := DropFriend(users[userId], friendId)][friendId := DropFriend(users[friendId], userId)]
  {
  }

  lemma DropUndoesAdd(doc: UserDoc, friendId: string)
    requires friendId !in doc.friends
    ensures DropFriend(AddFriend(doc, friendId), friendId) == doc
  {
    WithoutAppended(doc.friends, friendId);
  }

  lemma {:induction false} WithoutAppended(s: seq<string>, x: string)
    requires x !in s
    ensures Without(s + [x], x) == s
  {
    if s != [] {
      assert (s + [x])[1..] == s[1..] + [x];
      WithoutAppended(s[1..], x);
    }
  }

  // ----- Queries -----

  predicate UsernameInUse(users: map<string, UserDoc>, username: string) {
    exists id :: id in users && users[id].username == username
  }

  /** The duplicate check of sendFriendRequest: a pending request in the same direction. */
  predicate PendingRequestExists(requests: map<string, FriendRequestDoc>, from: string, to: string) {
    exists id :: id in requests && requests[id] == FriendRequestDoc(from, to, "pending", requests[id].timestamp)
  }

  /** Adding a pending request from `to` to `from` (under a fresh id, as `add`
      does) makes that direction a duplicate and leaves the other direction as
      it was: sending from `from` to `to` is blocked afterwards exactly when it
      was blocked before. */
  lemma ReverseRequestDoesNotBlock(requests: map<string, FriendRequestDoc>, from: string, to: string, id: string, t: int)
    requires from != to && id !in requests
    ensures var after := requests[id := FriendRequestDoc(to, from, "pending", t)];
      && PendingRequestExists(after, to, from)
      && (PendingRequestExists(after, from, to) <==> PendingRequestExists(requests, from, to))
  {
    var after := requests[id := FriendRequestDoc(to, from, "pending", t)];
    assert after[id] == FriendRequestDoc(to, from, "pending", after[id].timestamp);
    if PendingRequestExists(after, from, to) {
      var k :| k in after && after[k] == FriendRequestDoc(from, to, "pending", after[k].timestamp);
      assert k != id && k in requests && requests[k] == after[k];
    }
    if PendingRequestExists(requests, from, to) {
      var k :| k in requests && requests[k] == FriendRequestDoc(from, to, "pending", requests[k].timestamp);
      assert k in after && after[k] == requests[k];
    }
  }

  predicate IsIncoming(request: FriendRequestDoc, userId: string) {
    request.toUserId == userId && request.status == "pending"
  }

  function FriendIdsOf(users: map<string, UserDoc>, userId: string): seq<string> {
    if userId in users then users[userId].friends else []
  }

  /** The ids among `ids` that have a user document, in their order. */
  function KnownIds(ids: seq<string>, users: map<string, UserDoc>): (r: seq<string>)
    ensures |r| <= |ids|
    ensures forall i :: 0 <= i < |r| ==> r[i] in ids && r[i] in users
    ensures forall i :: 0 <= i < |ids| && ids[i] in users ==> ids[i] in r
  {
    if ids == [] then []
    else
      var last := ids[|ids| - 1];
      KnownIds(ids[..|ids| - 1], users) + (if last in users then [last] else [])
  }

  function IdsOf(docs: seq<UserDoc>): seq<string> {
    seq(|docs|, i requires 0 <= i < |docs| => docs[i].id)
  }

  function RequestIds(requests: seq<TaggedRequest>): seq<string> {
    seq(|requests|, i requires 0 <= i < |requests| => requests[i].requestId)
  }

  function ChatIds(chats: seq<TaggedChat>): seq<string> {
    seq(|chats|, i requires 0 <= i < |chats| => chats[i].chatId)
  }

  function MessageIds(messages: seq<ChatMessage>): seq<string> {
    seq(|messages|, i requires 0 <= i < |messages| => messages[i].id)
  }

  function ToChatMessage(id: string, doc: MessageDoc): ChatMessage {
    ChatMessage(id, doc.chatId, doc.senderId, doc.senderUsername, doc.content, doc.messageType,
                doc.mediaUrl, doc.mediaType, doc.timestamp, doc.isRead, doc.isDelivered)
  }

  function MessagesOf(messages: map<string, MessageDoc>, chatId: string): set<string> {
    set id | id in messages && messages[id].chatId == chatId
  }

  /** Firestore's order for `orderBy("timestamp")`: by timestamp, ties broken
      by document id. */
  predicate Earlier(m: ChatMessage, n: ChatMessage) {
    m.timestamp < n.timestamp || (m.timestamp == n.timestamp && LexLess(m.id, n.id))
  }

  lemma EarlierTransitive(a: ChatMessage, b: ChatMessage, c: ChatMessage)
    requires Earlier(a, b) && Earlier(b, c)
    ensures Earlier(a, c)
  {
    if a.timestamp == b.timestamp == c.timestamp {
      LexLessTransitive(a.id, b.id, c.id);
    }
  }

  lemma EarlierStrict(a: ChatMessage, b: ChatMessage)
    ensures !Earlier(a, a)
    ensures Earlier(a, b) ==> !Earlier(b, a)
    ensures a.id != b.id ==> Earlier(a, b) || Earlier(b, a)
  {
    LexLessAsymmetric(a.id, b.id);
    LexLessIrreflexive(a.id);
    LexLessTotal(a.id, b.id);
  }

  /** The newest of a non-empty set of messages. */
  method NewestOf(messages: map<string, MessageDoc>, ids: set<string>) returns (m: string)
    requires ids != {} && ids <= messages.Keys
    ensures m in ids
    ensures forall k :: k in ids && k != m ==>
      Earlier(ToChatMessage(k, messages[k]), ToChatMessage(m, messages[m]))
  {
    m :| m in ids;
    var rest := ids - {m};
    while rest != {}
      invariant rest <= ids && m in ids && m !in rest
      invariant forall k :: k in ids && k !in rest && k != m ==>
        Earlier(ToChatMessage(k, messages[k]), ToChatMessage(m, messages[m]))
      decreases rest
    {
      var k :| k in rest;
      var mk, mm := ToChatMessage(k, messages[k]), ToChatMessage(m, messages[m]);
      if Earlier(mm, mk) {
        forall j | j in ids && j !in rest && j != m
          ensures Earlier(ToChatMessage(j, messages[j]), mk)
        {
          EarlierTransitive(ToChatMessage(j, messages[j]), mm, mk);
        }
        EarlierStrict(mm, mk);
        m := k;
      } else {
        EarlierStrict(mm, mk);
      }
      rest := rest - {k};
    }
  }

  // ----- The service -----

  class FirebaseService {
    var firestore: Firestore
    var database: RealtimeDatabase

    /** What every operation keeps: no friends array holds an id twice, and
        no two user documents share a username. */
    ghost predicate Valid()
      reads this
    {
      FriendListsDistinct(firestore.users) && UsernamesUnique(firestore.users)
    }

    constructor(firestore0: Firestore, database0: RealtimeDatabase)
      ensures firestore == firestore0 && database == database0
    {
      firestore := firestore0;
      database := database0;
    }

    /** Registers a user unless the username is already taken. */
    method CreateUser(userId: string, username: string, displayName: string, now: int)
      returns (r: Result<(), Failure>)
      modifies this
      ensures r.Err? <==> old(UsernameInUse(firestore.users, username))
      ensures r.Err? ==> r.error == UsernameTaken && firestore == old(firestore)
      ensures r.Ok? ==> firestore == old(firestore).(users := old(firestore.users)[userId :=
        UserDoc(userId, username, displayName, "", "ONLINE", now, true, [], now)])
      ensures database == old(database)
      ensures old(Valid()) ==> Valid()
    {
      if UsernameInUse(firestore.users, username) {
        return Err(UsernameTaken);
      }
      var user := UserDoc(userId, username, displayName, "", "ONLINE", now, true, [], now);
      firestore := firestore.(users := firestore.users[userId := user]);
      r := Ok(());
    }

    /** Adds a pending request unless one from `fromUserId` to `toUserId` is
        already pending; `requestId` is the id Firestore's `add` generates. */
    method SendFriendRequest(fromUserId: string, toUserId: string, requestId: string, now: int)
      returns (r: Result<(), Failure>)
      requires requestId !in firestore.friendRequests
      modifies this
      ensures r.Err? <==> old(PendingRequestExists(firestore.friendRequests, fromUserId, toUserId))
      ensures r.Err? ==> r.error == RequestAlreadySent && firestore == old(firestore)
      ensures r.Ok? ==> firestore == old(firestore).(friendRequests := old(firestore.friendRequests)[requestId :=
        FriendRequestDoc(fromUserId, toUserId, "pending", now)])
      ensures PendingRequestExists(firestore.friendRequests, fromUserId, toUserId)
      ensures database == old(database)
      ensures old(Valid()) ==> Valid()
    {
      if PendingRequestExists(firestore.friendRequests, fromUserId, toUserId) {
        return Err(RequestAlreadySent);
      }
      var request := FriendRequestDoc(fromUserId, toUserId, "pending", now);
      firestore := firestore.(friendRequests := firestore.friendRequests[requestId := request]);
      assert firestore.friendRequests[requestId] == FriendRequestDoc(fromUserId, toUserId, "pending", firestore.friendRequests[requestId].timestamp);
      r := Ok(());
    }

    /** The pending requests addressed to `userId`, each tagged with its
        document id, in document-id order. */
    method GetIncomingFriendRequests(userId: string) returns (requests: seq<TaggedRequest>)
      ensures forall i, j :: 0 <= i < j < |requests| ==> LexLess(requests[i].requestId, requests[j].requestId)
      ensures forall i :: 0 <= i < |requests| ==>
        && requests[i].requestId in firestore.friendRequests
        && requests[i].request == firestore.friendRequests[requests[i].requestId]
        && IsIncoming(requests[i].request, userId)
      ensures forall id :: id in firestore.friendRequests && IsIncoming(firestore.friendRequests[id], userId) ==>
        id in RequestIds(requests)
    {
      var all := firestore.friendRequests;
      var ids := SortedKeys(all);
      requests := [];
      for n := 0 to |ids|
        invariant forall i, j :: 0 <= i < j < |requests| ==> LexLess(requests[i].requestId, requests[j].requestId)
        invariant forall i, k :: 0 <= i < |requests| && n <= k < |ids| ==> LexLess(requests[i].requestId, ids[k])
        invariant forall i :: 0 <= i < |requests| ==>
          requests[i].requestId in all && requests[i].request == all[requests[i].requestId] && IsIncoming(requests[i].request, userId)
        invariant forall k :: 0 <= k < n && IsIncoming(all[ids[k]], userId) ==> ids[k] in RequestIds(requests)
      {
        if IsIncoming(all[ids[n]], userId) {
          var tagged := TaggedRequest(ids[n], all[ids[n]]);
          assert RequestIds(requests + [tagged]) == RequestIds(requests) + [ids[n]];
          requests := requests + [tagged];
        }
      }
    }

    /** Marks the request accepted, makes each user a friend of the other and
        opens their chat in the Realtime Database. */
    method AcceptFriendRequest(requestId: string, now: int) returns (r: Result<(), Failure>)
      modifies this
      ensures firestore.chats == old(firestore.chats) && firestore.messages == old(firestore.messages)
      ensures database.messages == old(database.messages)
      ensures requestId !in old(firestore.friendRequests) ==>
        r == Err(NoSuchDocument("friend_requests", requestId)) && firestore == old(firestore) && database == old(database)
      ensures requestId in old(firestore.friendRequests) ==>
        var q := old(firestore.friendRequests[requestId]);
        && firestore.friendRequests == old(firestore.friendRequests)[requestId := q.(status := "accepted")]
        && (q.toUserId !in old(firestore.users) ==>
              && r == Err(NoSuchDocument("users", q.toUserId))
              && firestore.users == old(firestore.users) && database == old(database))
        && (q.toUserId in old(firestore.users) && q.fromUserId !in old(firestore.users) ==>
              && r == Err(NoSuchDocument("users", q.fromUserId))
              && firestore.users == old(firestore.users)[q.toUserId := AddFriend(old(firestore.users[q.toUserId]), q.fromUserId)]
              && database == old(database))
        && (q.toUserId in old(firestore.users) && q.fromUserId in old(firestore.users) ==>
              && r == Ok(())
              && firestore.users == WithFriendship(old(firestore.users), q.fromUserId, q.toUserId)
              && database.chats == old(database.chats)[ChatId(q.fromUserId, q.toUserId) :=
                   RealtimeChat([q.fromUserId, q.toUserId], "", now, now)])
      ensures r.Ok? ==> Accepted(firestore, database, requestId)
      ensures old(Valid()) ==> Valid()
    {
      if requestId !in firestore.friendRequests {
        return Err(NoSuchDocument("friend_requests", requestId));
      }
      var request := firestore.friendRequests[requestId].(status := "accepted");
      firestore := firestore.(friendRequests := firestore.friendRequests[requestId := request]);
      var fromUserId, toUserId := request.fromUserId, request.toUserId;
      if toUserId !in firestore.users {
        return Err(NoSuchDocument("users", toUserId));
      }
      firestore := firestore.(users := firestore.users[toUserId := AddFriend(firestore.users[toUserId], fromUserId)]);
      if fromUserId !in firestore.users {
        return Err(NoSuchDocument("users", fromUserId));
      }
      firestore := firestore.(users := firestore.users[fromUserId := AddFriend(firestore.users[fromUserId], toUserId)]);
      WithFriendshipOnlyAdds(old(firestore.users), fromUserId, toUserId);
      var _ := CreateRealtimeChat(fromUserId, toUserId, now);
      r := Ok(());
    }

    /** Deletes the request document; deleting a missing document succeeds. */
    method RejectFriendRequest(requestId: string) returns (r: Result<(), Failure>)
      modifies this
      ensures r == Ok(())
      ensures firestore == old(firestore).(friendRequests := old(firestore.friendRequests) - {requestId})
      ensures database == old(database)
      ensures old(Valid()) ==> Valid()
    {
      firestore := firestore.(friendRequests := firestore.friendRequests - {requestId});
      r := Ok(());
    }

    /** The user documents of the ids in `userId`'s friends array, in array
        order, skipping ids without a document; each carries its document id. */
    method GetFriends(userId: string) returns (friends: seq<UserDoc>)
      ensures IdsOf(friends) == KnownIds(FriendIdsOf(firestore.users, userId), firestore.users)
      ensures forall k :: 0 <= k < |friends| ==>
        friends[k].id in firestore.users && friends[k] == firestore.users[friends[k].id].(id := friends[k].id)
    {
      var users := firestore.users;
      var friendIds := FriendIdsOf(users, userId);
      friends := [];
      for n := 0 to |friendIds|
        invariant IdsOf(friends) == KnownIds(friendIds[..n], users)
        invariant forall k :: 0 <= k < |friends| ==>
          friends[k].id in users && friends[k] == users[friends[k].id].(id := friends[k].id)
      {
        assert friendIds[..n + 1][..n] == friendIds[..n];
        if friendIds[n] in users {
          var friend := users[friendIds[n]].(id := friendIds[n]);
          assert IdsOf(friends + [friend]) == IdsOf(friends) + [friend.id];
          friends := friends + [friend];
        }
      }
      assert friendIds[..|friendIds|] == friendIds;
    }

    /** Removes each user from the other's friends array and deletes their
        chat and its messages from the Realtime Database. */
    method RemoveFriend(userId: string, friendId: string) returns (r: Result<(), Failure>)
      modifies this
      ensures firestore.friendRequests == old(firestore.friendRequests)
      ensures firestore.chats == old(firestore.chats) && firestore.messages == old(firestore.messages)
      ensures userId !in old(firestore.users) ==>
        r == Err(NoSuchDocument("users", userId)) && firestore == old(firestore) && database == old(database)
      ensures userId in old(firestore.users) && friendId !in old(firestore.users) ==>
        && r == Err(NoSuchDocument("users", friendId))
        && firestore.users == old(firestore.users)[userId := DropFriend(old(firestore.users[userId]), friendId)]
        && database == old(database)
      ensures userId in old(firestore.users) && friendId in old(firestore.users) ==>
        && r == Ok(())
        && firestore.users == WithoutFriendship(old(firestore.users), userId, friendId)
        && database == RealtimeDatabase(old(database.chats) - {ChatId(userId, friendId)},
                                        old(database.messages) - {ChatId(userId, friendId)})
      ensures r.Ok? ==>
        && userId in firestore.users && friendId in firestore.users
        && friendId !in firestore.users[userId].friends
        && userId !in firestore.users[friendId].friends
        && ChatId(userId, friendId) !in database.chats
        && ChatId(userId, friendId) !in database.messages
      ensures old(Valid()) ==> Valid()
    {
      if userId !in firestore.users {
        return Err(NoSuchDocument("users", userId));
      }
      firestore := firestore.(users := firestore.users[userId := DropFriend(firestore.users[userId], friendId)]);
      if friendId !in firestore.users {
        return Err(NoSuchDocument("users", friendId));
      }
      firestore := firestore.(users := firestore.users[friendId := DropFriend(firestore.users[friendId], userId)]);
      WithoutFriendshipOnlyRemoves(old(firestore.users), userId, friendId);
      var chatId := ChatId(userId, friendId);
      database := database.(chats := database.chats - {chatId});
      database := database.(messages := database.messages - {chatId});
      r := Ok(());
    }

    /** Stores a text message and refreshes the chat's last-message cache;
        `messageId` is the id Firestore's `add` generates. */
    method SendMessage(chatId: string, senderId: string, senderUsername: string, content: string,
                       messageId: string, now: int)
      returns (r: Result<(), Failure>)
      requires messageId !in firestore.messages
      modifies this
      ensures r == Ok(())
      ensures firestore.messages == old(firestore.messages)[messageId :=
        MessageDoc(chatId, senderId, senderUsername, content, "text", "", "", now, false, false)]
      ensures firestore.chats == old(LastMessageUpdated(firestore.chats, chatId, content, now))
      ensures firestore.users == old(firestore.users) && firestore.friendRequests == old(firestore.friendRequests)
      ensures database == old(database)
      ensures old(Valid()) ==> Valid()
    {
      var message := MessageDoc(chatId, senderId, senderUsername, content, "text", "", "", now, false, false);
      firestore := firestore.(messages := firestore.messages[messageId := message]);
      UpdateChatLastMessage(chatId, content, now);
      r := Ok(());
    }

    /** Stores a media message whose type follows its MIME type, and refreshes
        the chat's last-message cache. */
    method SendMediaMessage(chatId: string, senderId: string, senderUsername: string, content: string,
                            mediaUrl: string, mediaType: string, messageId: string, now: int)
      returns (r: Result<(), Failure>)
      requires messageId !in firestore.messages
      modifies this
      ensures r == Ok(())
      ensures firestore.messages == old(firestore.messages)[messageId :=
        MessageDoc(chatId, senderId, senderUsername, content, MessageTypeFor(mediaType), mediaUrl, mediaType, now, false, false)]
      ensures firestore.chats == old(LastMessageUpdated(firestore.chats, chatId, content, now))
      ensures firestore.users == old(firestore.users) && firestore.friendRequests == old(firestore.friendRequests)
      ensures database == old(database)
      ensures old(Valid()) ==> Valid()
    {
      var message := MessageDoc(chatId, senderId, senderUsername, content, MessageTypeFor(mediaType),
                                mediaUrl, mediaType, now, false, false);
      firestore := firestore.(messages := firestore.messages[messageId := message]);
      UpdateChatLastMessage(chatId, content, now);
      r := Ok(());
    }

    /** Caches the last message on the chat document; when the document is
        missing the update fails and is ignored. */
    method UpdateChatLastMessage(chatId: string, content: string, now: int)
      modifies this
      ensures firestore == old(firestore).(chats := LastMessageUpdated(old(firestore.chats), chatId, content, now))
      ensures database == old(database)
    {
      if chatId in firestore.chats {
        var chat := firestore.chats[chatId].(lastMessage := content, lastMessageTimestamp := now, updatedAt := Some(now));
        firestore := firestore.(chats := firestore.chats[chatId := chat]);
      }
    }

    /** The newest `limit` messages of the chat, oldest first. */
    method GetMessages(chatId: string, limit: int) returns (r: Result<seq<ChatMessage>, Failure>)
      ensures r.Err? <==> limit <= 0
      ensures r.Err? ==> r.error == InvalidLimit(limit)
      ensures r.Ok? ==> IsHistory(r.value, firestore.messages, chatId, limit)
    {
      if limit <= 0 {
        return Err(InvalidLimit(limit));
      }
      var newestFirst := NewestMessages(firestore.messages, chatId, limit);
      r := Ok(Reverse(newestFirst));
      HistoryIsReversedQuery(newestFirst, firestore.messages, chatId, limit);
    }

    /** getMessages called without a limit, as the chat screen does: the
        default limit is positive, so the call always succeeds. */
    method GetLatestMessages(chatId: string) returns (r: Result<seq<ChatMessage>, Failure>)
      ensures r.Ok? && IsHistory(r.value, firestore.messages, chatId, DefaultMessageLimit)
    {
      r := GetMessages(chatId, DefaultMessageLimit);
    }

    /** Creates (or overwrites) the Realtime Database chat of two users under
        their chat id. */
    method CreateRealtimeChat(user1Id: string, user2Id: string, now: int) returns (chatId: string)
      modifies this
      ensures chatId == ChatId(user1Id, user2Id)
      ensures database == old(database).(chats := old(database.chats)[chatId := RealtimeChat([user1Id, user2Id], "", now, now)])
      ensures firestore == old(firestore)
    {
      chatId := ChatId(user1Id, user2Id);
      database := database.(chats := database.chats[chatId := RealtimeChat([user1Id, user2Id], "", now, now)]);
    }

    /** The Realtime Database chats whose participants include `userId`, each
        tagged with its key, in key order. */
    method GetRealtimeChats(userId: string) returns (chats: seq<TaggedChat>)
      ensures forall i, j :: 0 <= i < j < |chats| ==> LexLess(chats[i].chatId, chats[j].chatId)
      ensures forall i :: 0 <= i < |chats| ==>
        && chats[i].chatId in database.chats
        && chats[i].chat == database.chats[chats[i].chatId]
        && userId in chats[i].chat.participants
      ensures forall id :: id in database.chats && userId in database.chats[id].participants ==>
        id in ChatIds(chats)
    {
      var all := database.chats;
      var ids := SortedKeys(all);
      chats := [];
      for n := 0 to |ids|
        invariant forall i, j :: 0 <= i < j < |chats| ==> LexLess(chats[i].chatId, chats[j].chatId)
        invariant forall i, k :: 0 <= i < |chats| && n <= k < |ids| ==> LexLess(chats[i].chatId, ids[k])
        invariant forall i :: 0 <= i < |chats| ==>
          chats[i].chatId in all && chats[i].chat == all[chats[i].chatId] && userId in chats[i].chat.participants
        invariant forall k :: 0 <= k < n && userId in all[ids[k]].participants ==> ids[k] in ChatIds(chats)
      {
        if userId in all[ids[n]].participants {
          var tagged := TaggedChat(ids[n], all[ids[n]]);
          assert ChatIds(chats + [tagged]) == ChatIds(chats) + [ids[n]];
          chats := chats + [tagged];
        }
      }
    }
  }

  /** After a successful acceptance: the request is marked accepted, each user
      lists the other as a friend and their Realtime Database chat exists. */
  ghost predicate Accepted(firestore: Firestore, database: RealtimeDatabase, requestId: string) {
    && requestId in firestore.friendRequests
    && var q := firestore.friendRequests[requestId];
    && q.status == "accepted"
    && q.fromUserId in firestore.users && q.toUserId in firestore.users
    && q.fromUserId in firestore.users[q.toUserId].friends
    && q.toUserId in firestore.users[q.fromUserId].friends
    && ChatId(q.fromUserId, q.toUserId) in database.chats
  }

  /** Every entry is a message of the chat, as stored. */
  ghost predicate FromChat(h: seq<ChatMessage>, messages: map<string, MessageDoc>, chatId: string) {
    forall i :: 0 <= i < |h| ==>
      h[i].id in messages && messages[h[i].id].chatId == chatId && h[i] == ToChatMessage(h[i].id, messages[h[i].id])
  }

  /** Every message of the chat left out of `h` is older than every entry of `h`. */
  ghost predicate OmittedAreOlder(h: seq<ChatMessage>, messages: map<string, MessageDoc>, chatId: string) {
    forall id, i :: id in messages && messages[id].chatId == chatId && id !in MessageIds(h) && 0 <= i < |h| ==>
      Earlier(ToChatMessage(id, messages[id]), h[i])
  }

  function PageSize(limit: int, available: nat): nat {
    if limit < 0 then 0 else if limit < available then limit else available
  }

  /** `history` is what getMessages promises: the min(limit, n) newest of the
      chat's n messages, oldest first, each as stored. */
  ghost predicate IsHistory(history: seq<ChatMessage>, messages: map<string, MessageDoc>, chatId: string, limit: int) {
    && |history| == PageSize(limit, |MessagesOf(messages, chatId)|)
    && (forall i, j :: 0 <= i < j < |history| ==> Earlier(history[i], history[j]))
    && FromChat(history, messages, chatId)
    && OmittedAreOlder(history, messages, chatId)
  }

  /** What the newest-first selection loop has established: `page` holds the
      messages of `all` not in `rest`, newest first, each newer than all of `rest`. */
  ghost predicate Selected(messages: map<string, MessageDoc>, chatId: string, all: set<string>, rest: set<string>,
                           page: seq<ChatMessage>) {
    && rest <= all && all == MessagesOf(messages, chatId)
    && |page| + |rest| == |all|
    && FromChat(page, messages, chatId)
    && (forall id :: id in all ==> (id in rest <==> id !in MessageIds(page)))
    && (forall i, j :: 0 <= i < j < |page| ==> Earlier(page[j], page[i]))
    && (forall id, i :: id in rest && 0 <= i < |page| ==> Earlier(ToChatMessage(id, messages[id]), page[i]))
  }

  lemma SelectNext(messages: map<string, MessageDoc>, chatId: string, all: set<string>, rest: set<string>,
                   page: seq<ChatMessage>, newest: string)
    requires Selected(messages, chatId, all, rest, page)
    requires newest in rest
    requires forall k :: k in rest && k != newest ==> Earlier(ToChatMessage(k, messages[k]), ToChatMessage(newest, messages[newest]))
    ensures Selected(messages, chatId, all, rest - {newest}, page + [ToChatMessage(newest, messages[newest])])
  {
    var m := ToChatMessage(newest, messages[newest]);
    assert |rest - {newest}| == |rest| - 1;
    assert MessageIds(page + [m]) == MessageIds(page) + [newest];
  }

  /** The query `whereEqualTo("chatId", chatId).orderBy("timestamp", DESCENDING).limit(limit)`. */
  method NewestMessages(messages: map<string, MessageDoc>, chatId: string, limit: nat)
    returns (newestFirst: seq<ChatMessage>)
    ensures |newestFirst| == PageSize(limit, |MessagesOf(messages, chatId)|)
    ensures forall i, j :: 0 <= i < j < |newestFirst| ==> Earlier(newestFirst[j], newestFirst[i])
    ensures FromChat(newestFirst, messages, chatId)
    ensures OmittedAreOlder(newestFirst, messages, chatId)
  {
    var all := set id | id in messages && messages[id].chatId == chatId;
    var rest := all;
    newestFirst := [];
    while |newestFirst| < limit && rest != {}
      invariant Selected(messages, chatId, all, rest, newestFirst)
      invariant |newestFirst| <= limit
      decreases rest
    {
      var newest := NewestOf(messages, rest);
      SelectNext(messages, chatId, all, rest, newestFirst, newest);
      newestFirst := newestFirst + [ToChatMessage(newest, messages[newest])];
      rest := rest - {newest};
    }
  }

  lemma ReverseKeepsIds(h: seq<ChatMessage>)
    ensures forall id :: id in MessageIds(Reverse(h)) <==> id in MessageIds(h)
  {
    var r := Reverse(h);
    var n := |h|;
    forall id | id in MessageIds(r)
      ensures id in MessageIds(h)
    {
      var k :| 0 <= k < n && MessageIds(r)[k] == id;
      assert MessageIds(h)[n - 1 - k] == h[n - 1 - k].id == r[k].id;
    }
    forall id | id in MessageIds(h)
      ensures id in MessageIds(r)
    {
      var k :| 0 <= k < n && MessageIds(h)[k] == id;
      assert MessageIds(r)[n - 1 - k] == r[n - 1 - k].id == h[k].id;
    }
  }

  lemma ReverseAscending(newestFirst: seq<ChatMessage>)
    requires forall i, j :: 0 <= i < j < |newestFirst| ==> Earlier(newestFirst[j], newestFirst[i])
    ensures forall i, j :: 0 <= i < j < |newestFirst| ==> Earlier(Reverse(newestFirst)[i], Reverse(newestFirst)[j])
  {
    var history := Reverse(newestFirst);
    var n := |history|;
    forall i, j | 0 <= i < j < n
      ensures Earlier(history[i], history[j])
    {
      assert history[i] == newestFirst[n - 1 - i] && history[j] == newestFirst[n - 1 - j];
    }
  }

  lemma ReverseFromChat(newestFirst: seq<ChatMessage>, messages: map<string, MessageDoc>, chatId: string)
    requires FromChat(newestFirst, messages, chatId)
    ensures FromChat(Reverse(newestFirst), messages, chatId)
  {
    var history := Reverse(newestFirst);
    forall i | 0 <= i < |history|
      ensures history[i] == newestFirst[|history| - 1 - i]
    {
    }
  }

  lemma ReverseOmittedAreOlder(newestFirst: seq<ChatMessage>, messages: map<string, MessageDoc>, chatId: string)
    requires OmittedAreOlder(newestFirst, messages, chatId)
    ensures OmittedAreOlder(Reverse(newestFirst), messages, chatId)
  {
    var history := Reverse(newestFirst);
    ReverseKeepsIds(newestFirst);
    forall i | 0 <= i < |history|
      ensures history[i] == newestFirst[|history| - 1 - i]
    {
    }
  }

  /** Reversing the newest-first query page gives getMessages' history. */
  lemma HistoryIsReversedQuery(newestFirst: seq<ChatMessage>, messages: map<string, MessageDoc>, chatId: string, limit: nat)
    requires |newestFirst| == PageSize(limit, |MessagesOf(messages, chatId)|)
    requires forall i, j :: 0 <= i < j < |newestFirst| ==> Earlier(newestFirst[j], newestFirst[i])
    requires FromChat(newestFirst, messages, chatId)
    requires OmittedAreOlder(newestFirst, messages, chatId)
    ensures IsHistory(Reverse(newestFirst), messages, chatId, limit)
  {
    ReverseAscending(newestFirst);
    ReverseFromChat(newestFirst, messages, chatId);
    ReverseOmittedAreOlder(newestFirst, messages, chatId);
  }

  /** The chats collection after updateChatLastMessage. */
  function LastMessageUpdated(chats: map<string, ChatDoc>, chatId: string, content: string, now: int): (r: map<string, ChatDoc>)
    ensures r.Keys == chats.Keys
    ensures chatId in chats ==>
      && r[chatId].lastMessage == content && r[chatId].lastMessageTimestamp == now && r[chatId].updatedAt == Some(now)
      && r[chatId].participants == chats[chatId].participants && r[chatId].createdAt == chats[chatId].createdAt
    ensures forall id :: id in chats && id != chatId ==> r[id] == chats[id]
  {
    if chatId in chats
    then chats[chatId := chats[chatId].(lastMessage := content, lastMessageTimestamp := now, updatedAt := Some(now))]
    else chats
  }
}
