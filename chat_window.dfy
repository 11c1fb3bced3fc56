/** components/chat/ChatWindow.tsx: the other participant, the message list and the send
    handler. The backend send is an outcome parameter. */
module ChatWindow {
  import opened Types
  import opened Strings

  /** `p.id !== currentUser?.id`: with no current user every participant differs. */
  predicate Differs(currentUser: Option<User>, p: User) {
    currentUser.None? || p.id != currentUser.value.id
  }

  /** Index i holds the first participant other than the current user. */
  predicate FirstOther(participants: seq<User>, currentUser: Option<User>, i: int) {
    0 <= i < |participants| && Differs(currentUser, participants[i]) &&
    forall j :: 0 <= j < i ==> !Differs(currentUser, participants[j])
  }

  /** `chat.participants.find(...)`: the first participant other than the current user. */
  function OtherParticipant(participants: seq<User>, currentUser: Option<User>): (r: Option<User>)
    ensures r.None? <==> forall i :: 0 <= i < |participants| ==> !Differs(currentUser, participants[i])
    ensures r.Some? ==> exists i :: FirstOther(participants, currentUser, i) && participants[i] == r.value
  {
    if participants == [] then None
    else if Differs(currentUser, participants[0]) then
      assert FirstOther(participants, currentUser, 0);
      Some(participants[0])
    else
      var r := OtherParticipant(participants[1..], currentUser);
      assert forall i :: 1 <= i < |participants| ==> participants[i] == participants[1..][i - 1];
      if r.Some? then
        var k :| FirstOther(participants[1..], currentUser, k) && participants[1..][k] == r.value;
        assert FirstOther(participants, currentUser, k + 1);
        r
      else r
  }

  /** A chat of two distinct users shows each one the other. */
  lemma TwoPartyChat(a: User, b: User)
    requires a.id != b.id
    ensures OtherParticipant([a, b], Some(a)) == Some(b)
    ensures OtherParticipant([a, b], Some(b)) == Some(a)
  {
    assert [a, b][1..] == [b];
  }

  /** What sendMessage receives: the chat id, the sender and the text. */
  datatype SendRequest = SendRequest(chatId: string, senderId: string, text: string)

  class ChatWindowState {
    const currentUser: Option<User>
    var chat: Chat
    var messages: seq<Message>
    var newMessage: string

    constructor(chat: Chat, currentUser: Option<User>)
      ensures this.chat == chat && this.currentUser == currentUser
      ensures messages == chat.messages && newMessage == ""
    {
      this.chat := chat;
      this.currentUser := currentUser;
      messages := chat.messages;
      newMessage := "";
    }

    /** The effect on a new `chat`: the list is reset to its messages. */
    method OnChatChanged(newChat: Chat)
      modifies this
      ensures chat == newChat && messages == newChat.messages && newMessage == old(newMessage)
    {
      chat := newChat;
      messages := newChat.messages;
    }

    /** handleSendMessage: with a blank input or no user nothing is sent; otherwise the untrimmed
        text is sent and the message the backend returns is appended and the input cleared. A
        failed send throws and changes nothing. */
    method HandleSendMessage(sent: Option<Message>) returns (request: Option<SendRequest>)
      modifies this
      ensures request.Some? <==> !IsBlank(old(newMessage)) && currentUser.Some?
      ensures request.Some? ==> request.value == SendRequest(chat.id, currentUser.value.id, old(newMessage))
      ensures request.Some? && sent.Some? ==> messages == old(messages) + [sent.value] && newMessage == ""
      ensures request.None? || sent.None? ==> messages == old(messages) && newMessage == old(newMessage)
      ensures chat == old(chat)
    {
      if IsBlank(newMessage) || currentUser.None? {
        return None;
      }
      request := Some(SendRequest(chat.id, currentUser.value.id, newMessage));
      if sent.Some? {
        messages := messages + [sent.value];
        newMessage := "";
      }
    }

    /** The window renders only with a current user and another participant. */
    predicate Renders()
      reads this
    {
      OtherParticipant(chat.participants, currentUser).Some? && currentUser.Some?
    }
  }
}
