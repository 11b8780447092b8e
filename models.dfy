/** The app's plain records: models/User.kt and the chat screen's Message.kt. */
module Models {
  import opened Wrappers

  datatype UserStatus = Online | Offline | Away | Busy | Typing

  datatype User = User(
    id: string,
    username: string,
    displayName: string,
    avatarUrl: Option<string>,
    status: UserStatus,
    lastSeen: int,
    isOnline: bool,
    isTyping: bool,
    typingTo: Option<string>)

  datatype MessageType = Text | Image | Video | Audio | File

  /** A message as the chat screen shows it. */
  datatype Message = Message(
    id: string,
    text: string,
    sender: string,
    recipient: Option<string>,
    isSentByUser: bool,
    timestamp: int,
    messageType: MessageType,
    mediaUrl: Option<string>,
    isRead: bool,
    isDelivered: bool)
}
