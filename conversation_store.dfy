/**
 * The conversation store: one aggregate holding the authentication flag, the signed-in user,
 * the chat rooms, the room on screen, the messages shown, a loading flag and the theme.
 * Every action overwrites some of these fields and leaves the rest alone. Ids and timestamps
 * come from the clock reading `now` (integer milliseconds) passed to the action.
 */
module ConversationStore {
  import opened Wrappers
  import opened Decimal

  datatype User = User(id: string, name: Option<string>, email: Option<string>, phone: string, countryCode: string)

  datatype ChatRoom = ChatRoom(
    id: string,
    title: string,
    createdAt: int,
    lastMessage: Option<string>,
    lastMessageTime: Option<int>,
    unreadCount: nat)

  /** The message author: `'user'` or `'ai'`. */
  datatype Sender = UserSender | Ai

  datatype Message = Message(id: string, content: string, sender: Sender, timestamp: int, imageUrl: Option<string>)

  /** The part of the store that `partialize` hands to persistence. */
  datatype PersistedState = PersistedState(
    isAuthenticated: bool,
    user: Option<User>,
    chatRooms: seq<ChatRoom>,
    currentChatRoom: Option<ChatRoom>,
    isDarkMode: bool)

  const WelcomeId := "welcome"
  const WelcomeTail := "Welcome to Gemini AI. I'm here to help you with any questions or tasks you might have. How can I assist you today?"

  /** A user name is used only when present and non-empty (an empty string is falsy). */
  function WelcomeText(u: User): (text: string)
    ensures text == "Hello! " + WelcomeTail <==> u.name.None? || u.name.value == ""
    ensures |text| >= |WelcomeTail| && text[|text| - |WelcomeTail|..] == WelcomeTail
    ensures u.name.Some? && u.name.value != "" ==>
      |text| > 6 + |u.name.value| && text[6..6 + |u.name.value|] == u.name.value
    ensures u.name.Some? && u.name.value != "" ==>
      |text| >= 8 + |u.name.value| && text[..6] == "Hello " &&
      text[6 + |u.name.value|..8 + |u.name.value|] == "! "
  {
    if u.name.Some? && u.name.value != "" then
      var text := "Hello " + u.name.value + "! " + WelcomeTail;
      assert |text| != |"Hello! " + WelcomeTail|;
      assert text[6..6 + |u.name.value|] == u.name.value;
      assert text[..6] == "Hello ";
      assert text[6 + |u.name.value|..8 + |u.name.value|] == "! ";
      text
    else "Hello! " + WelcomeTail
  }

  function WelcomeMessage(u: User, now: int): Message {
    Message(WelcomeId, WelcomeText(u), Ai, now, None)
  }

  /** The room `createChatRoom` builds: id from the clock, no message yet. */
  function NewRoom(title: string, now: nat): ChatRoom {
    ChatRoom(DecimalString(now), title, now, None, None, 0)
  }

  /** `rooms.filter(room => room.id !== id)`. */
  function RoomsWithout(rooms: seq<ChatRoom>, id: string): (kept: seq<ChatRoom>)
    ensures |kept| <= |rooms|
    ensures forall room :: room in kept <==> room in rooms && room.id != id
  {
    if rooms == [] then []
    else (if rooms[0].id != id then [rooms[0]] else []) + RoomsWithout(rooms[1..], id)
  }

  /** Filtering commutes with concatenation, so the kept rooms stay in their original order. */
  lemma {:induction false} RoomsWithoutConcat(a: seq<ChatRoom>, b: seq<ChatRoom>, id: string)
    ensures RoomsWithout(a + b, id) == RoomsWithout(a, id) + RoomsWithout(b, id)
  {
    if a == [] {
      assert a + b == b;
    } else {
      assert (a + b)[1..] == a[1..] + b;
      RoomsWithoutConcat(a[1..], b, id);
    }
  }

  /** Deleting an id no room carries leaves the list as it is. */
  lemma {:induction false} RoomsWithoutAbsent(rooms: seq<ChatRoom>, id: string)
    requires forall room :: room in rooms ==> room.id != id
    ensures RoomsWithout(rooms, id) == rooms
  {
    if rooms != [] {
      RoomsWithoutAbsent(rooms[1..], id);
    }
  }

  /** Deleting the same id twice is deleting it once. */
  lemma RoomsWithoutIdempotent(rooms: seq<ChatRoom>, id: string)
    ensures RoomsWithout(RoomsWithout(rooms, id), id) == RoomsWithout(rooms, id)
  {
    RoomsWithoutAbsent(RoomsWithout(rooms, id), id);
  }

  /** The room on screen after deleting `id`: the first remaining room if the deleted one was on screen. */
  function NextCurrentRoom(current: Option<ChatRoom>, remaining: seq<ChatRoom>, id: string): Option<ChatRoom> {
    if current.Some? && current.value.id == id then
      (if remaining == [] then None else Some(remaining[0]))
    else current
  }

  /** The messages deleteChatRoom writes, as written: the guard tests the NEW current room's id. */
  function MessagesAfterDelete(newCurrent: Option<ChatRoom>, id: string, messages: seq<Message>): seq<Message> {
    if newCurrent.Some? && newCurrent.value.id == id then [] else messages
  }

  /** Whatever the rooms and the room on screen, deleteChatRoom as written keeps the messages. */
  lemma DeleteNeverClearsMessages(rooms: seq<ChatRoom>, current: Option<ChatRoom>, id: string, messages: seq<Message>)
    ensures MessagesAfterDelete(NextCurrentRoom(current, RoomsWithout(rooms, id), id), id, messages) == messages
  {
    var remaining := RoomsWithout(rooms, id);
    if remaining != [] {
      assert remaining[0] in remaining;
    }
  }

  /** The messages deleteChatRoom evidently means to write: cleared when the deleted room was on screen. */
  function MessagesAfterDeleteIntended(oldCurrent: Option<ChatRoom>, id: string, messages: seq<Message>): (shown: seq<Message>)
    ensures oldCurrent.Some? && oldCurrent.value.id == id ==> shown == []
    ensures !(oldCurrent.Some? && oldCurrent.value.id == id) ==> shown == messages
  {
    if oldCurrent.Some? && oldCurrent.value.id == id then [] else messages
  }

  /**
   * Over every state, the as-written and the intended guards disagree exactly when the
   * deleted room was on screen and messages were shown.
   */
  lemma DeleteGuardDiffersFromIntended(rooms: seq<ChatRoom>, current: Option<ChatRoom>, id: string, messages: seq<Message>)
    ensures MessagesAfterDelete(NextCurrentRoom(current, RoomsWithout(rooms, id), id), id, messages)
              != MessagesAfterDeleteIntended(current, id, messages)
            <==> current.Some? && current.value.id == id && messages != []
  {
    DeleteNeverClearsMessages(rooms, current, id, messages);
  }

  /** Deleting the room on screen while it shows a message: as written the message stays, as intended it goes. */
  lemma DeleteOpenRoomDiscrepancy()
    ensures
      var room := ChatRoom("1", "Chat", 1, None, None, 0);
      var shown := [Message("2", "hi", UserSender, 2, None)];
      && MessagesAfterDelete(NextCurrentRoom(Some(room), RoomsWithout([room], "1"), "1"), "1", shown) == shown
      && MessagesAfterDeleteIntended(Some(room), "1", shown) == []
  {
    var room := ChatRoom("1", "Chat", 1, None, None, 0);
    assert RoomsWithout([room], "1") == [];
  }

  /** One room after a message is added to it: last message, its time, and one more unread if the AI sent it. */
  function WithMessage(room: ChatRoom, content: string, sender: Sender, now: int): ChatRoom {
    room.(lastMessage := Some(content), lastMessageTime := Some(now),
          unreadCount := room.unreadCount + (if sender == Ai then 1 else 0))
  }

  /** `rooms.map(...)` in addMessage: the rooms whose id is the current room's id take the message. */
  function RoomsWithMessage(rooms: seq<ChatRoom>, current: Option<ChatRoom>, content: string, sender: Sender, now: int): (updated: seq<ChatRoom>)
    ensures |updated| == |rooms|
    ensures forall i :: 0 <= i < |rooms| ==>
      updated[i].id == rooms[i].id && updated[i].title == rooms[i].title && updated[i].createdAt == rooms[i].createdAt
  {
    seq(|rooms|, i requires 0 <= i < |rooms| =>
      if current.Some? && rooms[i].id == current.value.id then WithMessage(rooms[i], content, sender, now) else rooms[i])
  }

  /** The unread count grows by one exactly in the rooms matching the current room, and only for AI messages. */
  lemma RoomsWithMessageUnread(rooms: seq<ChatRoom>, current: Option<ChatRoom>, content: string, sender: Sender, now: int, i: nat)
    requires i < |rooms|
    ensures var updated := RoomsWithMessage(rooms, current, content, sender, now);
      updated[i].unreadCount == rooms[i].unreadCount + (if sender == Ai && current.Some? && rooms[i].id == current.value.id then 1 else 0)
  {
  }

  /** With no room on screen, adding a message changes no room. */
  lemma RoomsWithMessageNoCurrent(rooms: seq<ChatRoom>, content: string, sender: Sender, now: int)
    ensures RoomsWithMessage(rooms, None, content, sender, now) == rooms
  {
  }

  /** Rooms other than the one on screen are unchanged; the matching ones show the new message. */
  lemma RoomsWithMessageTouchesOnlyCurrent(rooms: seq<ChatRoom>, current: Option<ChatRoom>, content: string, sender: Sender, now: int, i: nat)
    requires i < |rooms|
    ensures var updated := RoomsWithMessage(rooms, current, content, sender, now);
      if current.Some? && rooms[i].id == current.value.id
      then updated[i].lastMessage == Some(content) && updated[i].lastMessageTime == Some(now)
      else updated[i] == rooms[i]
  {
  }

  /** The store created by `create<Store>()(persist(...))`. */
  class Store {
    var isAuthenticated: bool
    var user: Option<User>
    var chatRooms: seq<ChatRoom>
    var currentChatRoom: Option<ChatRoom>
    var messages: seq<Message>
    var isLoading: bool
    var isDarkMode: bool

    /** The initial state. */
    constructor ()
      ensures !isAuthenticated && user == None && chatRooms == [] && currentChatRoom == None
      ensures messages == [] && !isLoading && !isDarkMode
    {
      isAuthenticated := false;
      user := None;
      chatRooms := [];
      currentChatRoom := None;
      messages := [];
      isLoading := false;
      isDarkMode := false;
    }

    /** `partialize`: what persistence keeps; the messages and the loading flag are dropped. */
    function Persisted(): (p: PersistedState)
      reads this
      ensures p.isAuthenticated == isAuthenticated && p.user == user && p.chatRooms == chatRooms
      ensures p.currentChatRoom == currentChatRoom && p.isDarkMode == isDarkMode
    {
      PersistedState(isAuthenticated, user, chatRooms, currentChatRoom, isDarkMode)
    }

    method Login(u: User, now: int)
      modifies this
      ensures isAuthenticated && user == Some(u)
      ensures messages == [WelcomeMessage(u, now)] && messages[0].id == WelcomeId && messages[0].sender == Ai
      ensures chatRooms == old(chatRooms) && currentChatRoom == old(currentChatRoom)
      ensures isLoading == old(isLoading) && isDarkMode == old(isDarkMode)
    {
      isAuthenticated := true;
      user := Some(u);
      messages := [WelcomeMessage(u, now)];
    }

    method Logout()
      modifies this
      ensures !isAuthenticated && user == None && chatRooms == [] && currentChatRoom == None
      ensures messages == [] && !isLoading
      ensures isDarkMode == old(isDarkMode)
    {
      isAuthenticated := false;
      user := None;
      chatRooms := [];
      currentChatRoom := None;
      messages := [];
      isLoading := false;
    }

    method CreateChatRoom(title: string, now: nat)
      modifies this
      ensures chatRooms == [NewRoom(title, now)] + old(chatRooms)
      ensures |chatRooms| == |old(chatRooms)| + 1 && chatRooms[1..] == old(chatRooms)
      ensures chatRooms[0].title == title && chatRooms[0].unreadCount == 0 && chatRooms[0].lastMessage == None
      ensures currentChatRoom == Some(chatRooms[0])
      ensures messages == []
      ensures isAuthenticated == old(isAuthenticated) && user == old(user)
      ensures isLoading == old(isLoading) && isDarkMode == old(isDarkMode)
    {
      var room := NewRoom(title, now);
      chatRooms := [room] + chatRooms;
      currentChatRoom := Some(room);
      messages := [];
    }

    method DeleteChatRoom(id: string)
      modifies this
      ensures chatRooms == RoomsWithout(old(chatRooms), id)
      ensures forall room :: room in chatRooms <==> room in old(chatRooms) && room.id != id
      ensures old(currentChatRoom).Some? && old(currentChatRoom).value.id == id ==>
        currentChatRoom == (if chatRooms == [] then None else Some(chatRooms[0]))
      ensures !(old(currentChatRoom).Some? && old(currentChatRoom).value.id == id) ==>
        currentChatRoom == old(currentChatRoom)
      ensures currentChatRoom.Some? ==> currentChatRoom.value.id != id
      ensures messages == old(messages)
      ensures isAuthenticated == old(isAuthenticated) && user == old(user)
      ensures isLoading == old(isLoading) && isDarkMode == old(isDarkMode)
    {
      var updatedChatRooms := RoomsWithout(chatRooms, id);
      var newCurrentChatRoom := NextCurrentRoom(currentChatRoom, updatedChatRooms, id);
      DeleteNeverClearsMessages(chatRooms, currentChatRoom, id, messages);
      if updatedChatRooms != [] {
        assert updatedChatRooms[0] in updatedChatRooms;
      }
      chatRooms := updatedChatRooms;
      currentChatRoom := newCurrentChatRoom;
      messages := MessagesAfterDelete(newCurrentChatRoom, id, messages);
    }

    method SelectChatRoom(room: ChatRoom)
      modifies this
      ensures currentChatRoom == Some(room) && messages == []
      ensures chatRooms == old(chatRooms)
      ensures isAuthenticated == old(isAuthenticated) && user == old(user)
      ensures isLoading == old(isLoading) && isDarkMode == old(isDarkMode)
    {
      currentChatRoom := Some(room);
      messages := [];
    }

    method ClearCurrentChatRoom()
      modifies this
      ensures currentChatRoom == None
      ensures chatRooms == old(chatRooms) && messages == old(messages)
      ensures isAuthenticated == old(isAuthenticated) && user == old(user)
      ensures isLoading == old(isLoading) && isDarkMode == old(isDarkMode)
    {
      currentChatRoom := None;
    }

    method AddMessage(content: string, sender: Sender, imageUrl: Option<string>, now: nat)
      modifies this
      ensures messages == old(messages) + [Message(DecimalString(now), content, sender, now, imageUrl)]
      ensures chatRooms == RoomsWithMessage(old(chatRooms), old(currentChatRoom), content, sender, now)
      ensures |chatRooms| == |old(chatRooms)|
      ensures old(currentChatRoom) == None ==> chatRooms == old(chatRooms)
      ensures currentChatRoom == old(currentChatRoom)
      ensures isAuthenticated == old(isAuthenticated) && user == old(user)
      ensures isLoading == old(isLoading) && isDarkMode == old(isDarkMode)
    {
      var newMessage := Message(DecimalString(now), content, sender, now, imageUrl);
      messages := messages + [newMessage];
      chatRooms := RoomsWithMessage(chatRooms, currentChatRoom, content, sender, now);
    }

    method ClearMessages()
      modifies this
      ensures messages == []
      ensures Persisted() == old(Persisted()) && isLoading == old(isLoading)
    {
      messages := [];
    }

    method SetLoading(loading: bool)
      modifies this
      ensures isLoading == loading
      ensures Persisted() == old(Persisted()) && messages == old(messages)
    {
      isLoading := loading;
    }

    method ToggleDarkMode()
      modifies this
      ensures isDarkMode == !old(isDarkMode)
      ensures isAuthenticated == old(isAuthenticated) && user == old(user)
      ensures chatRooms == old(chatRooms) && currentChatRoom == old(currentChatRoom)
      ensures messages == old(messages) && isLoading == old(isLoading)
    {
      isDarkMode := !isDarkMode;
    }
  }

  /** Toggling the theme twice restores every field, whatever the state. */
  method ToggleTwiceIsIdentity(s: Store)
    modifies s
    ensures s.Persisted() == old(s.Persisted()) && s.messages == old(s.messages) && s.isLoading == old(s.isLoading)
  {
    s.ToggleDarkMode();
    s.ToggleDarkMode();
  }
}
