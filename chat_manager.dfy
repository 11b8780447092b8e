/** ChatManager.kt: the WebSocket chat's listener registry and the dispatch
    of incoming frames.

    A frame reaches the manager already parsed into a JSON object (Gson turns
    every number into a double). The callbacks a listener runs are recorded
    as a trace of deliveries, and what the manager asks the socket to send as
    a trace of outgoing requests. UUIDs and `System.currentTimeMillis()` are
    parameters. */
module Chat {
  import opened Wrappers
  import opened Seqs
  import opened Models

  // ----- Parsed frames -----

  /** A JSON value as Gson's `fromJson(json, Map::class.java)` returns it. */
  datatype JsonValue =
    | JString(str: string)
    | JNumber(num: real)
    | JBool(boolean: bool)
    | JNull
    | JArray(items: seq<JsonValue>)
    | JObject(fields: map<string, JsonValue>)

  type Frame = map<string, JsonValue>

  /** `frame[key] as? String` */
  function StringField(frame: Frame, key: string): (r: Option<string>)
    ensures r.Some? <==> key in frame && frame[key].JString?
    ensures r.Some? ==> frame[key] == JString(r.value)
  {
    if key in frame && frame[key].JString? then Some(frame[key].str) else None
  }

  /** `frame[key] as? Boolean` */
  function BoolField(frame: Frame, key: string): (r: Option<bool>)
    ensures r.Some? <==> key in frame && frame[key].JBool?
    ensures r.Some? ==> frame[key] == JBool(r.value)
  {
    if key in frame && frame[key].JBool? then Some(frame[key].boolean) else None
  }

  /** `frame[key] as? Number` */
  function NumberField(frame: Frame, key: string): (r: Option<real>)
    ensures r.Some? <==> key in frame && frame[key].JNumber?
    ensures r.Some? ==> frame[key] == JNumber(r.value)
  {
    if key in frame && frame[key].JNumber? then Some(frame[key].num) else None
  }

  const LongMin: int := -0x8000_0000_0000_0000
  const LongMax: int := 0x7FFF_FFFF_FFFF_FFFF

  /** Kotlin's `Double.toLong()` on a finite double: rounds toward zero and
      saturates at the bounds of Long. */
  function DoubleToLong(x: real): (r: int)
    ensures LongMin <= r <= LongMax
    ensures LongMin as real <= x <= LongMax as real ==> r as real <= x < r as real + 1.0 || r as real - 1.0 < x <= r as real
    ensures LongMin as real <= x <= LongMax as real && 0.0 <= x ==> r as real <= x < r as real + 1.0
    ensures LongMin as real <= x <= LongMax as real && x <= 0.0 ==> r as real - 1.0 < x <= r as real
    ensures x < LongMin as real ==> r == LongMin
    ensures x > LongMax as real ==> r == LongMax
  {
    var t := if 0.0 <= x then x.Floor else -((-x).Floor);
    if t < LongMin then LongMin else if t > LongMax then LongMax else t
  }

  /** A whole number in range converts exactly. */
  lemma DoubleToLongExact(n: int)
    requires LongMin <= n <= LongMax
    ensures DoubleToLong(n as real) == n
  {
  }

  // ----- Events and listeners -----

  /** One callback of ChatListener, with its arguments. */
  datatype Event =
    | MessageReceived(message: Message)
    | ConnectionStatusChanged(isConnected: bool)
    | TypingStatusChanged(username: string, isTyping: bool, recipient: Option<string>)
    | UserListUpdated(users: seq<User>)
    | UserStatusChanged

  /** A registered listener, compared by identity. */
  datatype ListenerRef = ListenerRef(id: nat)

  /** Listener `listener` ran the callback of `event`. */
  datatype Delivery = Delivery(listener: ListenerRef, event: Event)

  /** What the manager asked the socket to send. */
  datatype Outgoing =
    | ChatOut(content: string, recipient: Option<string>)
    | TypingOut(isTyping: bool, recipient: Option<string>)

  /** A ChatWebSocket: which one it is (each `connect` builds a new object), the
      username it logs in with, and whether it is open. */
  datatype WebSocketHandle = WebSocketHandle(socket: nat, username: string, open: bool)

  /** `send` on a socket that is not open throws, and nothing in sendMessage or
      sendTypingStatus catches it. */
  datatype SendFailure = NotConnected

  /** The deliveries of `listeners.forEach { it.<callback>(...) }`. */
  function Broadcast(listeners: seq<ListenerRef>, event: Event): (r: seq<Delivery>)
    ensures |r| == |listeners|
    ensures forall i :: 0 <= i < |r| ==> r[i] == Delivery(listeners[i], event)
  {
    if listeners == [] then [] else [Delivery(listeners[0], event)] + Broadcast(listeners[1..], event)
  }

  function Receivers(deliveries: seq<Delivery>): (r: seq<ListenerRef>)
    ensures |r| == |deliveries|
    ensures forall i :: 0 <= i < |r| ==> r[i] == deliveries[i].listener
  {
    if deliveries == [] then [] else [deliveries[0].listener] + Receivers(deliveries[1..])
  }

  lemma {:induction false} NoDuplicatesOccurOnce<T>(s: seq<T>, x: T)
    requires NoDuplicates(s)
    ensures multiset(s)[x] == if x in s then 1 else 0
  {
    if s != [] {
      assert s == [s[0]] + s[1..];
      assert NoDuplicates(s[1..]);
      NoDuplicatesOccurOnce(s[1..], x);
      if x == s[0] {
        assert x !in s[1..];
      }
    }
  }

  /** A broadcast over a duplicate-free registry reaches each registered
      listener exactly once, in registration order, and no one else. */
  lemma BroadcastReachesEachOnce(listeners: seq<ListenerRef>, event: Event)
    requires NoDuplicates(listeners)
    ensures Receivers(Broadcast(listeners, event)) == listeners
    ensures forall l :: multiset(Receivers(Broadcast(listeners, event)))[l] == if l in listeners then 1 else 0
  {
    assert Receivers(Broadcast(listeners, event)) == listeners;
    forall l
      ensures multiset(listeners)[l] == if l in listeners then 1 else 0
    {
      NoDuplicatesOccurOnce(listeners, l);
    }
  }

  /** The first index of `x` in `s`. */
  function IndexOf<T(==)>(s: seq<T>, x: T): (i: nat)
    requires x in s
    ensures i < |s| && s[i] == x && x !in s[..i]
  {
    if s[0] == x then 0 else 1 + IndexOf(s[1..], x)
  }

  /** `MutableList.remove(x)`: drops the first occurrence of `x`, if any. */
  function RemoveFirst<T(==)>(s: seq<T>, x: T): (r: seq<T>)
    ensures x !in s ==> r == s
    ensures x in s ==> r == s[..IndexOf(s, x)] + s[IndexOf(s, x) + 1..]
  {
    if s == [] then []
    else if s[0] == x then s[1..]
    else
      var rest := RemoveFirst(s[1..], x);
      assert x in s ==> x in s[1..] && IndexOf(s, x) == 1 + IndexOf(s[1..], x);
      assert x in s ==> s[..IndexOf(s, x)] == [s[0]] + s[1..][..IndexOf(s[1..], x)];
      assert x in s ==> s[IndexOf(s, x) + 1..] == s[1..][IndexOf(s[1..], x) + 1..];
      [s[0]] + rest
  }

  /** On a duplicate-free list, removing the first occurrence removes every
      occurrence; the others stay, in order. */
  lemma RemoveFirstOfDistinct<T>(s: seq<T>, x: T)
    requires NoDuplicates(s)
    ensures x !in RemoveFirst(s, x)
    ensures NoDuplicates(RemoveFirst(s, x))
    ensures RemoveFirst(s, x) == Without(s, x)
  {
    if x in s {
      var i := IndexOf(s, x);
      var before, after := s[..i], s[i + 1..];
      assert s == before + ([x] + after);
      assert x !in after by {
        forall j | 0 <= j < |after| ensures after[j] != x {
          assert after[j] == s[i + 1 + j];
        }
      }
      WithoutConcat(before, [x] + after, x);
      assert ([x] + after)[1..] == after;
    }
  }

  lemma {:induction false} WithoutConcat<T>(a: seq<T>, b: seq<T>, x: T)
    ensures Without(a + b, x) == Without(a, x) + Without(b, x)
  {
    if a == [] {
      assert a + b == b;
    } else {
      assert (a + b)[0] == a[0] && (a + b)[1..] == a[1..] + b;
      WithoutConcat(a[1..], b, x);
    }
  }

  // ----- Dispatch -----

  /** The message handleChatMessage builds from a "message" frame. */
  function FrameMessage(frame: Frame, messageId: string, now: int): (m: Message)
    ensures m.id == messageId && !m.isSentByUser
    ensures m.text == (if StringField(frame, "content").Some? then StringField(frame, "content").value else "")
    ensures m.sender == (if StringField(frame, "sender").Some? then StringField(frame, "sender").value else "")
    ensures m.recipient == StringField(frame, "recipient")
    ensures NumberField(frame, "timestamp").None? ==> m.timestamp == now
    ensures NumberField(frame, "timestamp").Some? ==> m.timestamp == DoubleToLong(NumberField(frame, "timestamp").value)
    ensures m.messageType == Text && m.mediaUrl == None && !m.isRead && !m.isDelivered
  {
    var timestamp := NumberField(frame, "timestamp");
    Message(messageId,
            StringField(frame, "content").GetOr(""),
            StringField(frame, "sender").GetOr(""),
            StringField(frame, "recipient"),
            false,
            if timestamp.Some? then DoubleToLong(timestamp.value) else now,
            Text, None, false, false)
  }

  /** handleTypingStatus: nothing without a string `sender`. */
  function TypingEvent(frame: Frame): (e: Option<Event>)
    ensures e.None? <==> StringField(frame, "sender").None?
    ensures e.Some? ==> e.value == TypingStatusChanged(StringField(frame, "sender").value,
                                                       BoolField(frame, "isTyping") == Some(true),
                                                       StringField(frame, "recipient"))
  {
    match StringField(frame, "sender")
    case None => None
    case Some(username) => Some(TypingStatusChanged(username, BoolField(frame, "isTyping").GetOr(false), StringField(frame, "recipient")))
  }

  /** handleIncomingMessage: the notification a parsed frame causes, if any. */
  function Dispatch(frame: Frame, onlineUsers: seq<User>, messageId: string, now: int): (e: Option<Event>)
    ensures var t := StringField(frame, "type");
      && (t !in {Some("message"), Some("typing"), Some("user_list"), Some("user_status")} ==> e.None?)
      && (t == Some("message") <==> e.Some? && e.value.MessageReceived?)
      && (t == Some("typing") && StringField(frame, "sender").Some? <==> e.Some? && e.value.TypingStatusChanged?)
      && (t == Some("user_list") <==> e.Some? && e.value.UserListUpdated?)
      && (t == Some("user_status") <==> e == Some(UserStatusChanged))
    ensures e.Some? && e.value.MessageReceived? ==> e.value.message == FrameMessage(frame, messageId, now)
    ensures e.Some? && e.value.UserListUpdated? ==> e.value.users == onlineUsers
    ensures StringField(frame, "type") == Some("typing") ==> e == TypingEvent(frame)
  {
    var t := StringField(frame, "type");
    if t == Some("message") then Some(MessageReceived(FrameMessage(frame, messageId, now)))
    else if t == Some("typing") then TypingEvent(frame)
    else if t == Some("user_list") then Some(UserListUpdated(onlineUsers))
    else if t == Some("user_status") then Some(UserStatusChanged)
    else None
  }

  /** The message sendMessage shows locally. */
  function LocalEcho(text: string, recipient: Option<string>, currentUser: Option<User>, messageId: string, now: int): (m: Message)
    ensures m.isSentByUser && m.text == text && m.recipient == recipient && m.id == messageId && m.timestamp == now
    ensures currentUser.None? ==> m.sender == ""
    ensures currentUser.Some? ==> m.sender == currentUser.value.username
    ensures m.messageType == Text && m.mediaUrl == None && !m.isRead && !m.isDelivered
  {
    Message(messageId, text, if currentUser.Some? then currentUser.value.username else "", recipient,
            true, now, Text, None, false, false)
  }

  function DeliveriesOf(e: Option<Event>, listeners: seq<ListenerRef>): seq<Delivery> {
    if e.Some? then Broadcast(listeners, e.value) else []
  }

  class ChatManager {
    var webSocket: Option<WebSocketHandle>
    /** How many sockets connect has built; the next one gets this number. */
    var socketsCreated: nat
    /** Never assigned after construction. */
    const currentUser: Option<User>
    /** Never filled. */
    const onlineUsers: seq<User>
    var chatListeners: seq<ListenerRef>
    /** The callbacks run so far. */
    var delivered: seq<Delivery>
    /** The send requests made so far. */
    var sent: seq<Outgoing>

    ghost predicate Valid()
      reads this
    {
      NoDuplicates(chatListeners) &&
      (webSocket.Some? ==> webSocket.value.socket < socketsCreated)
    }

    constructor()
      ensures webSocket == None && socketsCreated == 0 && currentUser == None && onlineUsers == []
      ensures chatListeners == [] && delivered == [] && sent == []
      ensures Valid()
    {
      webSocket := None;
      socketsCreated := 0;
      currentUser := None;
      onlineUsers := [];
      chatListeners := [];
      delivered := [];
      sent := [];
    }

    /** Replaces the socket by a new one that is still connecting; the old one
        is not closed. */
    method Connect(username: string)
      modifies this
      ensures webSocket == Some(WebSocketHandle(old(socketsCreated), username, false))
      ensures socketsCreated == old(socketsCreated) + 1
      ensures chatListeners == old(chatListeners) && delivered == old(delivered) && sent == old(sent)
      ensures old(Valid()) ==> Valid()
    {
      webSocket := Some(WebSocketHandle(socketsCreated, username, false));
      socketsCreated := socketsCreated + 1;
    }

    method Disconnect()
      modifies this
      ensures webSocket == None && socketsCreated == old(socketsCreated)
      ensures chatListeners == old(chatListeners) && delivered == old(delivered) && sent == old(sent)
      ensures old(Valid()) ==> Valid()
    {
      webSocket := None;
    }

    /** Runs `event`'s callback on every registered listener, in order. */
    method Notify(event: Event)
      modifies this
      ensures delivered == old(delivered) + Broadcast(chatListeners, event)
      ensures webSocket == old(webSocket) && socketsCreated == old(socketsCreated)
      ensures chatListeners == old(chatListeners) && sent == old(sent)
      ensures old(Valid()) ==> Valid()
    {
      var listeners := chatListeners;
      for i := 0 to |listeners|
        invariant webSocket == old(webSocket) && socketsCreated == old(socketsCreated)
        invariant chatListeners == listeners && sent == old(sent)
        invariant delivered == old(delivered) + Broadcast(listeners[..i], event)
      {
        assert Broadcast(listeners[..i + 1], event) == Broadcast(listeners[..i], event) + [Delivery(listeners[i], event)];
        delivered := delivered + [Delivery(listeners[i], event)];
      }
      assert listeners[..|listeners|] == listeners;
    }

    /** Socket `socket` reports that it opened or closed (onOpen, onClose,
        onError). The report changes only that socket, which may be one that a
        later connect replaced; the listeners are told either way. */
    method OnConnectionStatusChanged(socket: nat, isConnected: bool)
      modifies this
      ensures webSocket ==
        if old(webSocket).Some? && old(webSocket).value.socket == socket
        then Some(old(webSocket).value.(open := isConnected)) else old(webSocket)
      ensures delivered == old(delivered) + Broadcast(chatListeners, ConnectionStatusChanged(isConnected))
      ensures socketsCreated == old(socketsCreated) && chatListeners == old(chatListeners) && sent == old(sent)
      ensures old(Valid()) ==> Valid()
    {
      if webSocket.Some? && webSocket.value.socket == socket {
        webSocket := Some(webSocket.value.(open := isConnected));
      }
      Notify(ConnectionStatusChanged(isConnected));
    }

    /** Sends the message if there is a socket and always shows it locally,
        unless the socket exists but is not open. */
    method SendMessage(message: string, recipient: Option<string>, messageId: string, now: int)
      returns (r: Result<(), SendFailure>)
      modifies this
      ensures r.Err? <==> old(webSocket).Some? && !old(webSocket).value.open
      ensures r.Err? ==> delivered == old(delivered) && sent == old(sent)
      ensures r.Ok? ==> sent == old(sent) + (if old(webSocket).Some? then [ChatOut(message, recipient)] else [])
      ensures r.Ok? ==> delivered == old(delivered) + Broadcast(chatListeners, MessageReceived(LocalEcho(message, recipient, currentUser, messageId, now)))
      ensures r.Ok? && currentUser == None ==>
        forall i :: old(|delivered|) <= i < |delivered| ==>
          delivered[i].event.MessageReceived? && delivered[i].event.message.isSentByUser && delivered[i].event.message.sender == ""
      ensures webSocket == old(webSocket) && socketsCreated == old(socketsCreated) && chatListeners == old(chatListeners)
      ensures old(Valid()) ==> Valid()
    {
      if webSocket.Some? {
        if !webSocket.value.open {
          return Err(NotConnected);
        }
        sent := sent + [ChatOut(message, recipient)];
      }
      var localMessage := LocalEcho(message, recipient, currentUser, messageId, now);
      Notify(MessageReceived(localMessage));
      r := Ok(());
    }

    method SendTypingStatus(isTyping: bool, recipient: Option<string>) returns (r: Result<(), SendFailure>)
      modifies this
      ensures r.Err? <==> old(webSocket).Some? && !old(webSocket).value.open
      ensures sent == old(sent) + (if r.Ok? && old(webSocket).Some? then [TypingOut(isTyping, recipient)] else [])
      ensures webSocket == old(webSocket) && socketsCreated == old(socketsCreated)
      ensures chatListeners == old(chatListeners) && delivered == old(delivered)
      ensures old(Valid()) ==> Valid()
    {
      if webSocket.Some? {
        if !webSocket.value.open {
          return Err(NotConnected);
        }
        sent := sent + [TypingOut(isTyping, recipient)];
      }
      r := Ok(());
    }

    /** A text frame from the socket; `None` when Gson cannot parse it into a map. */
    method HandleIncomingMessage(parsed: Option<Frame>, messageId: string, now: int)
      modifies this
      ensures parsed.None? ==> delivered == old(delivered)
      ensures parsed.Some? ==> delivered == old(delivered) + DeliveriesOf(Dispatch(parsed.value, onlineUsers, messageId, now), chatListeners)
      ensures webSocket == old(webSocket) && socketsCreated == old(socketsCreated)
      ensures chatListeners == old(chatListeners) && sent == old(sent)
      ensures old(Valid()) ==> Valid()
    {
      if parsed.Some? {
        var e := Dispatch(parsed.value, onlineUsers, messageId, now);
        if e.Some? {
          Notify(e.value);
        }
      }
    }

    /** Registers `listener` unless it is already registered. */
    method AddChatListener(listener: ListenerRef)
      modifies this
      ensures chatListeners == if listener in old(chatListeners) then old(chatListeners) else old(chatListeners) + [listener]
      ensures listener in chatListeners
      ensures webSocket == old(webSocket) && socketsCreated == old(socketsCreated)
      ensures delivered == old(delivered) && sent == old(sent)
      ensures old(Valid()) ==> Valid()
    {
      if listener !in chatListeners {
        chatListeners := chatListeners + [listener];
      }
    }

    /** Unregisters `listener`; the others keep their order. */
    method RemoveChatListener(listener: ListenerRef)
      modifies this
      ensures chatListeners == RemoveFirst(old(chatListeners), listener)
      ensures old(Valid()) ==> chatListeners == Without(old(chatListeners), listener) && listener !in chatListeners
      ensures webSocket == old(webSocket) && socketsCreated == old(socketsCreated)
      ensures delivered == old(delivered) && sent == old(sent)
      ensures old(Valid()) ==> Valid()
    {
      if Valid() {
        RemoveFirstOfDistinct(chatListeners, listener);
      }
      chatListeners := RemoveFirst(chatListeners, listener);
    }
  }
}
