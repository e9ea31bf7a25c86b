/**
 * `ChatController`: chats found or created by name, messages stamped by the server,
 * stored and published to the chat's topic, and the read-only chat and message
 * queries. The server clock is passed in as the instant's text and its UTC hour and
 * minute.
 */
module ChatControllers {

  import opened Failures
  import opened Entities
  import opened Seqs
  import opened Repositories
  import opened Text

  /** The date part of an ISO-8601 instant (`2024-05-01T...`), with `/` for `-`. */
  function DateOf(instant: string): string
    requires 'T' in instant
  {
    Replace(instant[..IndexOf(instant, 'T')], '-', '/')
  }

  /** Minutes rendered with a leading zero below 10. */
  function TwoDigits(minute: nat): string
    requires minute < 60
  {
    if minute > 9 then NatToString(minute) else "0" + NatToString(minute)
  }

  /** The time part: the UTC hour plus two, without wrapping past midnight, then the
      minutes. */
  function TimeOf(hour: nat, minute: nat): string
    requires minute < 60
  {
    NatToString(hour + 2) + ":" + TwoDigits(minute)
  }

  /** `generateTimeStamp` for the instant `instant` whose UTC hour and minute are
      `hour` and `minute`. */
  function GenerateTimeStamp(instant: string, hour: nat, minute: nat): (ts: string)
    requires 'T' in instant && hour < 24 && minute < 60
    ensures CountOf(ts, '-') == 1
    ensures IndexOf(ts, '-') == |DateOf(instant)|
  {
    var ts := DateOf(instant) + "-" + TimeOf(hour, minute);
    TimeStampParts(instant, hour, minute);
    ts
  }

  /** Neither part of a timestamp holds a `-`, so the one between them is the only one. */
  lemma TimeStampParts(instant: string, hour: nat, minute: nat)
    requires 'T' in instant && minute < 60
    ensures '-' !in DateOf(instant) && '-' !in TimeOf(hour, minute)
    ensures CountOf(DateOf(instant) + "-" + TimeOf(hour, minute), '-') == 1
    ensures IndexOf(DateOf(instant) + "-" + TimeOf(hour, minute), '-') == |DateOf(instant)|
  {
    var date, time := DateOf(instant), TimeOf(hour, minute);
    assert forall i :: 0 <= i < |time| ==> time[i] != '-' by {
      var h, m := NatToString(hour + 2), TwoDigits(minute);
      assert time == h + ":" + m;
      assert AllDigits(m) by {
        if minute <= 9 {
          assert m == ['0'] + NatToString(minute);
        }
      }
      forall i | 0 <= i < |time| ensures time[i] != '-' {
        if i < |h| {
          assert time[i] == h[i];
        } else if i > |h| {
          assert time[i] == m[i - |h| - 1];
        }
      }
    }
    CountOfAbsent(date, '-');
    CountOfAbsent(time, '-');
    CountOfConcat(date, "-", '-');
    CountOfConcat(date + "-", time, '-');
    assert CountOf("-", '-') == 1 by {
      assert "-"[1..] == [];
    }
    IndexOfSeparator(date, time, '-');
  }

  /** The minutes always take two digits and read back as the minute. */
  lemma TwoDigitsReadBack(minute: nat)
    requires minute < 60
    ensures |TwoDigits(minute)| == 2 && AllDigits(TwoDigits(minute))
    ensures ParseNat(TwoDigits(minute)) == minute
  {
    ParseNatToString(minute);
    if minute <= 9 {
      assert TwoDigits(minute) == ['0'] + NatToString(minute);
    } else {
      assert |NatToString(minute / 10)| == 1;
    }
  }

  /** The time part reads back as hour `hour + 2` (between 2 and 25) and the minute. */
  lemma TimeOfReadBack(hour: nat, minute: nat)
    requires hour < 24 && minute < 60
    ensures var t := TimeOf(hour, minute);
      var k := IndexOf(t, ':');
      && 0 < k && |t| == k + 3
      && AllDigits(t[..k]) && ParseNat(t[..k]) == hour + 2 && 2 <= hour + 2 <= 25
      && t[k + 1..] == TwoDigits(minute) && ParseNat(t[k + 1..]) == minute
  {
    var h := NatToString(hour + 2);
    assert ':' !in h by {
      forall i | 0 <= i < |h| ensures h[i] != ':' { assert IsDigit(h[i]); }
    }
    IndexOfSeparator(h, TwoDigits(minute), ':');
    var t := TimeOf(hour, minute);
    assert t[..|h|] == h && t[|h| + 1..] == TwoDigits(minute);
    ParseNatToString(hour + 2);
    TwoDigitsReadBack(minute);
  }

  /** The topic a chat's messages are published to. */
  function Topic(to: string): string
  {
    "/topic/messages/" + to
  }

  /** The `{to}` of a client frame's destination under the `/app` application prefix
      and the `/chat/{to}` mapping: one non-empty path segment. */
  function RouteChatDestination(destination: string): (to: Option<string>)
    ensures to.Some? ==> "/app/chat/" + to.value == destination && to.value != [] && '/' !in to.value
    ensures |destination| > 10 && destination[..10] == "/app/chat/" && '/' !in destination[10..] ==>
      to == Some(destination[10..])
  {
    var prefix := "/app/chat/";
    if |destination| > |prefix| && destination[..|prefix|] == prefix && '/' !in destination[|prefix|..]
    then Some(destination[|prefix|..])
    else None
  }

  /** No two chats share a name. */
  predicate NamesUnique(chats: seq<Chat>)
  {
    forall i, j :: 0 <= i < j < |chats| ==> chats[i].name != chats[j].name
  }

  class ChatController {
    const chatRepository: ChatRepository
    const messageRepository: MessageRepository
    const broker: MessageBroker

    /** Chats are created only by name through `createAndOrGetChat`, so names are
        unique, and every message belongs to a chat id already handed out. */
    ghost predicate Valid()
      reads chatRepository, messageRepository
    {
      && chatRepository.Valid()
      && messageRepository.Valid()
      && NamesUnique(chatRepository.chats)
      && forall i :: 0 <= i < |messageRepository.messages| && messageRepository.messages[i].chatId.Some? ==>
           messageRepository.messages[i].chatId.value < chatRepository.nextId
    }

    constructor (chats: ChatRepository, messages: MessageRepository, template: MessageBroker)
      requires chats.Valid() && messages.Valid() && NamesUnique(chats.chats)
      requires forall i :: 0 <= i < |messages.messages| && messages.messages[i].chatId.Some? ==>
        messages.messages[i].chatId.value < chats.nextId
      ensures chatRepository == chats && messageRepository == messages && broker == template
      ensures Valid()
    {
      chatRepository, messageRepository, broker := chats, messages, template;
    }

    /** `findChatByName` on a table with unique names: the chat with that name, if any. */
    function ChatNamed(name: string): (r: Option<Chat>)
      reads chatRepository
      requires NamesUnique(chatRepository.chats)
      ensures chatRepository.FindChatByName(name) == Ok(r)
      ensures r.Some? <==> exists i :: 0 <= i < |chatRepository.chats| && chatRepository.chats[i].name == name
      ensures r.Some? ==> r.value in chatRepository.chats && r.value.name == name
    {
      var rows := Filter(chatRepository.chats, (c: Chat) => c.name == name);
      FilterAtMostOne(chatRepository.chats, (c: Chat) => c.name == name);
      if |rows| == 0 then None else Some(rows[0])
    }

    /** `createAndOrGetChat`: the chat with that name, created (with no participant)
        when there is none. */
    method CreateAndOrGetChat(name: string) returns (chat: Chat)
      requires Valid()
      modifies chatRepository
      ensures Valid()
      ensures chat.name == name && ChatNamed(name) == Some(chat)
      ensures old(ChatNamed(name)).Some? ==>
        && chat == old(ChatNamed(name)).value
        && chatRepository.chats == old(chatRepository.chats) && chatRepository.nextId == old(chatRepository.nextId)
      ensures old(ChatNamed(name)).None? ==>
        && chat == Chat(old(chatRepository.nextId), name, None)
        && chatRepository.chats == old(chatRepository.chats) + [chat]
    {
      var found := ChatNamed(name);
      if found.Some? {
        return found.value;
      }
      ghost var chats0 := chatRepository.chats;
      chat := chatRepository.Insert(Chat(0, name, None));
      FilterAppend(chats0, chat, (c: Chat) => c.name == name);
    }

    /** `sendMessage`: the frame, attached to the chat named `to` and stamped with the
        server time, is stored and published to that chat's topic. */
    method SendMessage(to: string, frame: MessageFrame, instant: string, hour: nat, minute: nat)
      requires Valid()
      requires 'T' in instant && hour < 24 && minute < 60
      modifies chatRepository, messageRepository, broker
      ensures Valid()
      ensures ChatNamed(to).Some?
      ensures old(ChatNamed(to)).Some? ==> chatRepository.chats == old(chatRepository.chats)
      ensures old(ChatNamed(to)).None? ==> chatRepository.chats == old(chatRepository.chats) + [Chat(old(chatRepository.nextId), to, None)]
      ensures
        var saved := Message(old(messageRepository.nextId), Some(ChatNamed(to).value.chatId), frame.sender,
                             GenerateTimeStamp(instant, hour, minute), frame.content);
        && messageRepository.messages == old(messageRepository.messages) + [saved]
        && broker.published == old(broker.published) + [Publication(Topic(to), saved)]
        && GetMessages(to) == old(GetMessages(to)) + [saved]
    {
      ghost var before := GetMessages(to);
      ghost var nextChat := chatRepository.nextId;
      var chat := CreateAndOrGetChat(to);
      assert GetMessages(to) == before by {
        if chat.chatId == nextChat {
          FilterNone(messageRepository.messages, (m: Message) => m.chatId == Some(chat.chatId));
        }
      }
      var message := Message(0, Some(chat.chatId), frame.sender, GenerateTimeStamp(instant, hour, minute), frame.content);
      var saved := SaveAndPublish(to, chat, message);
    }

    /** The store-and-publish half of `sendMessage`, once the chat is known. */
    method SaveAndPublish(to: string, chat: Chat, message: Message) returns (saved: Message)
      requires Valid() && ChatNamed(to) == Some(chat) && message.chatId == Some(chat.chatId)
      modifies messageRepository, broker
      ensures Valid()
      ensures saved == message.(msId := old(messageRepository.nextId))
      ensures messageRepository.messages == old(messageRepository.messages) + [saved]
      ensures broker.published == old(broker.published) + [Publication(Topic(to), saved)]
      ensures GetMessages(to) == old(GetMessages(to)) + [saved]
    {
      ghost var messages0 := messageRepository.messages;
      saved := messageRepository.Insert(message);
      FilterAppend(messages0, saved, (m: Message) => m.chatId == Some(chat.chatId));
      broker.ConvertAndSend(Topic(to), saved);
    }

    /** `getChats`: the chats whose participant text contains `user`. */
    function GetChats(user: string): (r: seq<Chat>)
      reads chatRepository
      ensures forall i :: 0 <= i < |r| ==>
        r[i] in chatRepository.chats && r[i].participant.Some? && Contains(r[i].participant.value, user)
      ensures forall i :: 0 <= i < |chatRepository.chats| ==>
        (chatRepository.chats[i].participant.Some? && Contains(chatRepository.chats[i].participant.value, user) ==>
           chatRepository.chats[i] in r)
    {
      chatRepository.FindByParticipantContaining(user)
    }

    /** `getMessages`: the messages of the chat with that name in storage order, or
        none when there is no such chat. */
    function GetMessages(chatName: string): (r: seq<Message>)
      reads chatRepository, messageRepository
      requires NamesUnique(chatRepository.chats)
      ensures ChatNamed(chatName).None? ==> r == []
      ensures ChatNamed(chatName).Some? ==> r == messageRepository.FindAllByChat(ChatNamed(chatName).value.chatId)
      ensures forall i :: 0 <= i < |r| ==>
        r[i] in messageRepository.messages && r[i].chatId.Some? && ChatNamed(chatName).Some?
        && r[i].chatId.value == ChatNamed(chatName).value.chatId
    {
      match ChatNamed(chatName)
      case None => []
      case Some(chat) => messageRepository.FindAllByChat(chat.chatId)
    }
  }
}
