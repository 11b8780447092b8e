/** FirebaseRealtimeService.kt: the friend graph kept in the Firebase Realtime
    Database, a tree of nodes addressed by path.

    The two subtrees the class uses are maps:
      friend_requests/<receiverId>/<senderId> -> { timestamp, status }
      users/<userId> -> { username, displayName, avatarUrl, isOnline, lastSeen, friends/<friendId> -> bool }
    A child the tree does not hold is `None` (or absent from its map). The
    Realtime Database keeps no empty nodes, so a user node with no field and
    no friend is one that does not exist. `ServerValue.TIMESTAMP` is the
    parameter `now`. Children are read in key order. */
module RealtimeService {
  import opened Wrappers
  import opened Strings
  import opened Models

  /** friend_requests/<receiverId>/<senderId>. */
  datatype RequestNode = RequestNode(timestamp: Option<int>, status: Option<string>)

  /** users/<userId>. */
  datatype UserNode = UserNode(
    username: Option<string>,
    displayName: Option<string>,
    avatarUrl: Option<string>,
    isOnline: Option<bool>,
    lastSeen: Option<int>,
    friends: map<string, bool>)

  type RequestTree = map<string, map<string, RequestNode>>
  type UserTree = map<string, UserNode>

  /** One entry of getIncomingFriendRequests' result list. */
  datatype IncomingRequest = IncomingRequest(senderId: string, timestamp: int, status: string)

  const EmptyUser: UserNode := UserNode(None, None, None, None, None, map[])

  /** `snapshot.exists()` for a user node. */
  predicate Exists(node: UserNode) {
    node.username.Some? || node.displayName.Some? || node.avatarUrl.Some? ||
    node.isOnline.Some? || node.lastSeen.Some? || |node.friends| > 0
  }

  // ----- Reading the tree -----

  function RequestsTo(tree: RequestTree, receiverId: string): map<string, RequestNode> {
    if receiverId in tree then tree[receiverId] else map[]
  }

  function RequestAt(tree: RequestTree, receiverId: string, senderId: string): Option<RequestNode> {
    var children := RequestsTo(tree, receiverId);
    if senderId in children then Some(children[senderId]) else None
  }

  /** The status getIncomingFriendRequests reads: a missing status is "pending". */
  function StatusOf(node: RequestNode): string {
    node.status.GetOr("pending")
  }

  /** The request from `senderId` to `receiverId` counts as pending. */
  predicate IsPending(tree: RequestTree, receiverId: string, senderId: string) {
    var r := RequestAt(tree, receiverId, senderId);
    r.Some? && StatusOf(r.value) == "pending"
  }

  function UserAt(users: UserTree, userId: string): UserNode {
    if userId in users then users[userId] else EmptyUser
  }

  /** users/<userId>/friends/<friendId> holds `true`. */
  predicate FriendFlag(users: UserTree, userId: string, friendId: string) {
    var friends := UserAt(users, userId).friends;
    friendId in friends && friends[friendId]
  }

  /** getFriends(userId) lists `friendId`: the flag is true and the friend's node exists. */
  predicate IsFriendListed(users: UserTree, userId: string, friendId: string) {
    FriendFlag(users, userId, friendId) && Exists(UserAt(users, friendId))
  }

  /** The database stores no empty node, so every request child holds a
      timestamp or a status. */
  predicate NoEmptyRequests(tree: RequestTree) {
    forall r, s :: r in tree && s in tree[r] ==> tree[r][s].timestamp.Some? || tree[r][s].status.Some?
  }

  /** Every friend flag has its mirror. */
  ghost predicate FriendshipSymmetric(users: UserTree) {
    forall u, f :: FriendFlag(users, u, f) ==> FriendFlag(users, f, u)
  }

  /** The User that getFriends builds from a friend's node. */
  function FriendUser(friendId: string, node: UserNode): (u: User)
    ensures u.id == friendId && u.status == Online && !u.isTyping && u.typingTo == None
    ensures u.username == (if node.username.Some? then node.username.value else "")
    ensures u.displayName == (if node.displayName.Some? then node.displayName.value else "")
    ensures node.avatarUrl.Some? ==> u.avatarUrl == node.avatarUrl
    ensures node.avatarUrl.None? ==> u.avatarUrl == Some("")
    ensures u.isOnline <==> node.isOnline == Some(true)
    ensures node.lastSeen.Some? ==> u.lastSeen == node.lastSeen.value
    ensures node.lastSeen.None? ==> u.lastSeen == 0
  {
    User(friendId, node.username.GetOr(""), node.displayName.GetOr(""), Some(node.avatarUrl.GetOr("")),
         Online, node.lastSeen.GetOr(0), node.isOnline.GetOr(false), false, None)
  }

  // ----- The writes, as functions of the tree -----

  /** `setValue` at friend_requests/<receiverId>/<senderId>. */
  function WithRequest(tree: RequestTree, receiverId: string, senderId: string, node: RequestNode): RequestTree {
    tree[receiverId := RequestsTo(tree, receiverId)[senderId := node]]
  }

  /** `removeValue` at friend_requests/<receiverId>/<senderId>. */
  function WithoutRequest(tree: RequestTree, receiverId: string, senderId: string): RequestTree {
    if receiverId in tree then tree[receiverId := tree[receiverId] - {senderId}] else tree
  }

  /** `setValue(true)` at users/<userId>/friends/<friendId>. */
  function WithFriendFlag(users: UserTree, userId: string, friendId: string): UserTree {
    var node := UserAt(users, userId);
    users[userId := node.(friends := node.friends[friendId := true])]
  }

  /** The request node after acceptFriendRequest: the status child is set, the timestamp child stays. */
  function AcceptedNode(old_: Option<RequestNode>): RequestNode {
    RequestNode(if old_.Some? then old_.value.timestamp else None, Some("accepted"))
  }

  /** The users subtree after acceptFriendRequest(receiverId, senderId). */
  function Befriended(users: UserTree, receiverId: string, senderId: string): UserTree {
    WithFriendFlag(WithFriendFlag(users, receiverId, senderId), senderId, receiverId)
  }

  // ----- Properties of the writes -----

  /** A sent request is pending, whatever was stored there before, and no other
      request node changes. */
  lemma SendOverwrites(tree: RequestTree, receiverId: string, senderId: string, now: int, r: string, s: string)
    ensures IsPending(WithRequest(tree, receiverId, senderId, RequestNode(Some(now), Some("pending"))), receiverId, senderId)
    ensures (r, s) != (receiverId, senderId) ==>
      RequestAt(WithRequest(tree, receiverId, senderId, RequestNode(Some(now), Some("pending"))), r, s) == RequestAt(tree, r, s)
  {
  }

  /** A rejected sender is no longer pending; every other request node stays. */
  lemma RejectRemovesOnlyThatRequest(tree: RequestTree, receiverId: string, senderId: string, r: string, s: string)
    ensures RequestAt(WithoutRequest(tree, receiverId, senderId), receiverId, senderId) == None
    ensures !IsPending(WithoutRequest(tree, receiverId, senderId), receiverId, senderId)
    ensures (r, s) != (receiverId, senderId) ==> RequestAt(WithoutRequest(tree, receiverId, senderId), r, s) == RequestAt(tree, r, s)
  {
  }

  /** After acceptance both flags are set, and exactly these two flags changed. */
  lemma BefriendedSetsBothFlags(users: UserTree, receiverId: string, senderId: string, u: string, f: string)
    ensures FriendFlag(Befriended(users, receiverId, senderId), receiverId, senderId)
    ensures FriendFlag(Befriended(users, receiverId, senderId), senderId, receiverId)
    ensures (u, f) != (receiverId, senderId) && (u, f) != (senderId, receiverId) ==>
      (FriendFlag(Befriended(users, receiverId, senderId), u, f) <==> FriendFlag(users, u, f))
  {
  }

  /** Acceptance keeps the friendship relation symmetric. */
  lemma BefriendedKeepsSymmetry(users: UserTree, receiverId: string, senderId: string)
    requires FriendshipSymmetric(users)
    ensures FriendshipSymmetric(Befriended(users, receiverId, senderId))
  {
    var after := Befriended(users, receiverId, senderId);
    forall u, f | FriendFlag(after, u, f)
      ensures FriendFlag(after, f, u)
    {
      BefriendedSetsBothFlags(users, receiverId, senderId, u, f);
      BefriendedSetsBothFlags(users, receiverId, senderId, f, u);
    }
  }

  /** Accepting twice leaves the request tree as accepting once. */
  lemma AcceptRequestIdempotent(tree: RequestTree, receiverId: string, senderId: string)
    ensures var t1 := WithRequest(tree, receiverId, senderId, AcceptedNode(RequestAt(tree, receiverId, senderId)));
      WithRequest(t1, receiverId, senderId, AcceptedNode(RequestAt(t1, receiverId, senderId))) == t1
  {
    var t1 := WithRequest(tree, receiverId, senderId, AcceptedNode(RequestAt(tree, receiverId, senderId)));
    assert RequestsTo(t1, receiverId)[senderId := AcceptedNode(RequestAt(t1, receiverId, senderId))] == RequestsTo(t1, receiverId);
  }

  /** Setting a friend flag that is already set changes nothing. */
  lemma WithFriendFlagIdempotent(users: UserTree, userId: string, friendId: string)
    requires FriendFlag(users, userId, friendId) && userId in users
    ensures WithFriendFlag(users, userId, friendId) == users
  {
    var node := users[userId];
    assert node.friends[friendId := true] == node.friends;
    assert node.(friends := node.friends[friendId := true]) == node;
  }

  /** Accepting twice leaves the users subtree as accepting once. */
  lemma BefriendedIdempotent(users: UserTree, receiverId: string, senderId: string)
    ensures Befriended(Befriended(users, receiverId, senderId), receiverId, senderId) == Befriended(users, receiverId, senderId)
  {
    var b1 := Befriended(users, receiverId, senderId);
    BefriendedSetsBothFlags(users, receiverId, senderId, receiverId, senderId);
    WithFriendFlagIdempotent(b1, receiverId, senderId);
    WithFriendFlagIdempotent(b1, senderId, receiverId);
  }

  /** An accepted request no longer shows as pending. */
  lemma AcceptedIsNotPending(tree: RequestTree, receiverId: string, senderId: string)
    ensures !IsPending(WithRequest(tree, receiverId, senderId, AcceptedNode(RequestAt(tree, receiverId, senderId))), receiverId, senderId)
  {
  }

  /** createUser on a user that already has friends wipes their friends map
      and leaves the friends' mirror flags dangling. */
  lemma CreateUserBreaksSymmetry()
    ensures var users := map["a" := UserNode(Some("a"), Some("A"), Some(""), Some(true), Some(0), map["b" := true]),
                             "b" := UserNode(Some("b"), Some("B"), Some(""), Some(true), Some(0), map["a" := true])];
      && FriendshipSymmetric(users)
      && !FriendshipSymmetric(users["a" := UserNode(Some("a"), Some("A"), Some(""), Some(true), Some(1), map[])])
  {
    var users := map["a" := UserNode(Some("a"), Some("A"), Some(""), Some(true), Some(0), map["b" := true]),
                     "b" := UserNode(Some("b"), Some("B"), Some(""), Some(true), Some(0), map["a" := true])];
    forall u, f | FriendFlag(users, u, f)
      ensures FriendFlag(users, f, u)
    {
      assert u == "a" || u == "b";
    }
    var after := users["a" := UserNode(Some("a"), Some("A"), Some(""), Some(true), Some(1), map[])];
    assert FriendFlag(after, "b", "a") && !FriendFlag(after, "a", "b");
  }

  function SenderIds(requests: seq<IncomingRequest>): seq<string> {
    seq(|requests|, i requires 0 <= i < |requests| => requests[i].senderId)
  }

  function UserIds(users: seq<User>): seq<string> {
    seq(|users|, i requires 0 <= i < |users| => users[i].id)
  }

  class FirebaseRealtimeService {
    /** friend_requests */
    var friendRequests: RequestTree
    /** users */
    var users: UserTree

    ghost predicate Valid()
      reads this
    {
      FriendshipSymmetric(users) && NoEmptyRequests(friendRequests)
    }

    constructor(friendRequests0: RequestTree, users0: UserTree)
      ensures friendRequests == friendRequests0 && users == users0
    {
      friendRequests := friendRequests0;
      users := users0;
    }

    /** Writes a pending request at friend_requests/<toUserId>/<fromUserId>,
        replacing whatever was there. */
    method SendFriendRequest(fromUserId: string, toUserId: string, now: int)
      modifies this
      ensures friendRequests == WithRequest(old(friendRequests), toUserId, fromUserId, RequestNode(Some(now), Some("pending")))
      ensures users == old(users)
      ensures IsPending(friendRequests, toUserId, fromUserId)
      ensures forall r, s :: (r, s) != (toUserId, fromUserId) ==> RequestAt(friendRequests, r, s) == RequestAt(old(friendRequests), r, s)
      ensures old(Valid()) ==> Valid()
    {
      var children := if toUserId in friendRequests then friendRequests[toUserId] else map[];
      friendRequests := friendRequests[toUserId := children[fromUserId := RequestNode(Some(now), Some("pending"))]];
    }

    /** The pending requests to `userId`, one per sender, in sender-id order. */
    method GetIncomingFriendRequests(userId: string) returns (requests: seq<IncomingRequest>)
      ensures StrictlyAscending(SenderIds(requests))
      ensures forall s :: s in SenderIds(requests) <==> IsPending(friendRequests, userId, s)
      ensures forall i :: 0 <= i < |requests| ==>
        && requests[i].senderId in RequestsTo(friendRequests, userId)
        && requests[i] == IncomingRequest(requests[i].senderId,
             RequestsTo(friendRequests, userId)[requests[i].senderId].timestamp.GetOr(0), "pending")
    {
      var children := RequestsTo(friendRequests, userId);
      var senders := SortedKeys(children);
      requests := [];
      for n := 0 to |senders|
        invariant StrictlyAscending(SenderIds(requests))
        invariant forall i, k :: 0 <= i < |requests| && n <= k < |senders| ==> LexLess(requests[i].senderId, senders[k])
        invariant forall i :: 0 <= i < |requests| ==>
          && requests[i].senderId in children
          && requests[i] == IncomingRequest(requests[i].senderId, children[requests[i].senderId].timestamp.GetOr(0), "pending")
        invariant forall s :: s in SenderIds(requests) ==> IsPending(friendRequests, userId, s)
        invariant forall k :: 0 <= k < n && IsPending(friendRequests, userId, senders[k]) ==> senders[k] in SenderIds(requests)
      {
        var senderId := senders[n];
        var timestamp := children[senderId].timestamp.GetOr(0);
        var status := children[senderId].status.GetOr("pending");
        if status == "pending" {
          var entry := IncomingRequest(senderId, timestamp, status);
          assert SenderIds(requests + [entry]) == SenderIds(requests) + [senderId];
          requests := requests + [entry];
        }
      }
      forall s | IsPending(friendRequests, userId, s)
        ensures s in SenderIds(requests)
      {
        assert s in senders;
      }
    }

    /** Marks the request accepted and sets both friend flags. */
    method AcceptFriendRequest(receiverId: string, senderId: string)
      modifies this
      ensures friendRequests ==
        WithRequest(old(friendRequests), receiverId, senderId, AcceptedNode(RequestAt(old(friendRequests), receiverId, senderId)))
      ensures users == Befriended(old(users), receiverId, senderId)
      ensures !IsPending(friendRequests, receiverId, senderId)
      ensures FriendFlag(users, receiverId, senderId) && FriendFlag(users, senderId, receiverId)
      ensures old(Valid()) ==> Valid()
    {
      // friend_requests/<receiverId>/<senderId>/status = "accepted"
      var children := if receiverId in friendRequests then friendRequests[receiverId] else map[];
      var timestamp := if senderId in children then children[senderId].timestamp else None;
      friendRequests := friendRequests[receiverId := children[senderId := RequestNode(timestamp, Some("accepted"))]];
      // users/<receiverId>/friends/<senderId> = true
      var receiver := if receiverId in users then users[receiverId] else EmptyUser;
      users := users[receiverId := receiver.(friends := receiver.friends[senderId := true])];
      // users/<senderId>/friends/<receiverId> = true
      var sender := if senderId in users then users[senderId] else EmptyUser;
      users := users[senderId := sender.(friends := sender.friends[receiverId := true])];
      BefriendedSetsBothFlags(old(users), receiverId, senderId, receiverId, senderId);
      if old(Valid()) {
        BefriendedKeepsSymmetry(old(users), receiverId, senderId);
      }
    }

    /** Removes friend_requests/<receiverId>/<senderId>. */
    method RejectFriendRequest(receiverId: string, senderId: string)
      modifies this
      ensures friendRequests == WithoutRequest(old(friendRequests), receiverId, senderId)
      ensures users == old(users)
      ensures RequestAt(friendRequests, receiverId, senderId) == None
      ensures forall r, s :: (r, s) != (receiverId, senderId) ==> RequestAt(friendRequests, r, s) == RequestAt(old(friendRequests), r, s)
      ensures old(Valid()) ==> Valid()
    {
      if receiverId in friendRequests {
        friendRequests := friendRequests[receiverId := friendRequests[receiverId] - {senderId}];
      }
    }

    /** The users whose flag in users/<userId>/friends is true and whose node
        exists, in friend-id order. */
    method GetFriends(userId: string) returns (friends: seq<User>)
      ensures StrictlyAscending(UserIds(friends))
      ensures forall f :: f in UserIds(friends) <==> IsFriendListed(users, userId, f)
      ensures forall i :: 0 <= i < |friends| ==> friends[i].id in users && friends[i] == FriendUser(friends[i].id, users[friends[i].id])
    {
      var flags := UserAt(users, userId).friends;
      var friendIds := SortedKeys(flags);
      friends := [];
      for n := 0 to |friendIds|
        invariant StrictlyAscending(UserIds(friends))
        invariant forall i, k :: 0 <= i < |friends| && n <= k < |friendIds| ==> LexLess(friends[i].id, friendIds[k])
        invariant forall i :: 0 <= i < |friends| ==> friends[i].id in users && friends[i] == FriendUser(friends[i].id, users[friends[i].id])
        invariant forall f :: f in UserIds(friends) ==> IsFriendListed(users, userId, f)
        invariant forall k :: 0 <= k < n && IsFriendListed(users, userId, friendIds[k]) ==> friendIds[k] in UserIds(friends)
      {
        var friendId := friendIds[n];
        var isFriend := flags[friendId];
        if isFriend {
          var friendNode := UserAt(users, friendId);
          if Exists(friendNode) {
            var friendUser := FriendUser(friendId, friendNode);
            assert UserIds(friends + [friendUser]) == UserIds(friends) + [friendId];
            friends := friends + [friendUser];
          }
        }
      }
      forall f | IsFriendListed(users, userId, f)
        ensures f in UserIds(friends)
      {
        assert f in friendIds;
      }
    }

    /** Writes a fresh user node: online, avatar "", no friends. */
    method CreateUser(userId: string, username: string, displayName: string, now: int)
      modifies this
      ensures users == old(users)[userId := UserNode(Some(username), Some(displayName), Some(""), Some(true), Some(now), map[])]
      ensures friendRequests == old(friendRequests)
      ensures forall f :: !FriendFlag(users, userId, f)
    {
      users := users[userId := UserNode(Some(username), Some(displayName), Some(""), Some(true), Some(now), map[])];
    }

    /** Sets users/<userId>/isOnline and lastSeen; no other child changes. */
    method UpdateUserStatus(userId: string, isOnline: bool, now: int)
      modifies this
      ensures users == old(users)[userId := UserAt(old(users), userId).(isOnline := Some(isOnline), lastSeen := Some(now))]
      ensures friendRequests == old(friendRequests)
      ensures var before, after := UserAt(old(users), userId), UserAt(users, userId);
        && after.username == before.username && after.displayName == before.displayName
        && after.avatarUrl == before.avatarUrl && after.friends == before.friends
        && after.isOnline == Some(isOnline) && after.lastSeen == Some(now)
      ensures forall u, f :: FriendFlag(users, u, f) <==> FriendFlag(old(users), u, f)
      ensures old(Valid()) ==> Valid()
    {
      var node := if userId in users then users[userId] else EmptyUser;
      users := users[userId := node.(isOnline := Some(isOnline), lastSeen := Some(now))];
    }
  }
}
