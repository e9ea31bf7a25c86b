/**
 * The Angular chat page (`ChatComponent`): the channel name two users share, the frame
 * it sends and the topic it listens to, the message list ordered by id, and the
 * display helpers for timestamps and images. The socket, the HTTP calls and their
 * callbacks are not modelled: what the server answers arrives as a parameter.
 */
module ChatClient {

  import opened Failures
  import opened Entities
  import opened Text
  import opened ChatControllers

  /** The channel name `connectToChat` computes: the nickname of the user with the
      higher id first, then `&`, then the other nickname. */
  function ChannelName(id1: nat, nick1: string, id2: nat, nick2: string): (c: string)
    ensures |c| == |nick1| + |nick2| + 1
    ensures id1 > id2 ==> c[..|nick1|] == nick1 && c[|nick1|] == '&'
    ensures id1 <= id2 ==> c[..|nick2|] == nick2 && c[|nick2|] == '&'
    ensures id1 > id2 ==> c[|nick1| + 1..] == nick2
    ensures id1 <= id2 ==> c[|nick2| + 1..] == nick1
  {
    if id1 > id2 then nick1 + "&" + nick2 else nick2 + "&" + nick1
  }

  /** Both users of a conversation compute the same channel name, whichever of them
      opens the page. */
  lemma ChannelNameSymmetric(id1: nat, nick1: string, id2: nat, nick2: string)
    requires id1 != id2 || nick1 == nick2
    ensures ChannelName(id1, nick1, id2, nick2) == ChannelName(id2, nick2, id1, nick1)
  {
  }

  /** The destination `sendMsg` sends to. */
  function SendDestination(channel: string): string
  {
    "/app/chat/" + channel
  }

  /** The topic `connectToChat` subscribes to. */
  function SubscribeTopic(channel: string): string
  {
    "/topic/messages/" + channel
  }

  /** A frame the server routes from the client's destination reaches `sendMessage`
      with `to` equal to the channel name, and the server publishes the saved message
      on exactly the topic the client listens to. */
  lemma {:induction false} ClientAndServerAgree(id1: nat, nick1: string, id2: nat, nick2: string)
    requires '/' !in nick1 && '/' !in nick2
    ensures var channel := ChannelName(id1, nick1, id2, nick2);
      && RouteChatDestination(SendDestination(channel)) == Some(channel)
      && Topic(channel) == SubscribeTopic(channel)
  {
    var channel := ChannelName(id1, nick1, id2, nick2);
    var prefix := "/app/chat/";
    assert '/' !in channel by {
      var a, b := if id1 > id2 then nick1 else nick2, if id1 > id2 then nick2 else nick1;
      assert channel == a + "&" + b;
      forall i | 0 <= i < |channel| ensures channel[i] != '/' {
        if i < |a| {
          assert channel[i] == a[i];
        } else if i > |a| {
          assert channel[i] == b[i - |a| - 1];
        }
      }
    }
    assert SendDestination(channel)[..|prefix|] == prefix;
    assert SendDestination(channel)[|prefix|..] == channel;
  }

  /** A frame pushed onto the socket: its destination and its JSON body. */
  datatype Frame = Frame(destination: string, body: MessageFrame)

  /** The placeholder timestamp the client puts in every frame; the server replaces it. */
  const PendingTimeStamp: string := "to be defined in server"

  /** Ascending by message id. */
  predicate Ascending(s: seq<Message>)
  {
    forall k, l :: 0 <= k < l < |s| ==> s[k].msId <= s[l].msId
  }

  /** No two messages share an id. */
  predicate DistinctIds(s: seq<Message>)
  {
    forall k, l :: 0 <= k < l < |s| ==> s[k].msId != s[l].msId
  }

  /** `msgs.sort((a, b) => (a.ms_id > b.ms_id ? 1 : -1))`, done in place. */
  method SortByMsId(a: array<Message>)
    modifies a
    ensures Ascending(a[..])
    ensures multiset(a[..]) == multiset(old(a[..]))
  {
    var i := 0;
    while i < a.Length
      invariant 0 <= i <= a.Length
      invariant Ascending(a[..i])
      invariant multiset(a[..]) == multiset(old(a[..]))
    {
      InsertLast(a, i);
      i := i + 1;
    }
    assert a[..] == a[..a.Length];
  }

  /** One step of the sort: `a[i]` moves down past every larger message before it. */
  method InsertLast(a: array<Message>, i: nat)
    requires i < a.Length && Ascending(a[..i])
    modifies a
    ensures Ascending(a[..i + 1])
    ensures multiset(a[..]) == multiset(old(a[..]))
  {
    var j := i;
    while j > 0 && a[j - 1].msId > a[j].msId
      invariant 0 <= j <= i
      invariant forall k, l :: 0 <= k < l <= i && l != j ==> a[k].msId <= a[l].msId
      invariant forall l :: j < l <= i ==> a[j].msId < a[l].msId
      invariant multiset(a[..]) == multiset(old(a[..]))
    {
      Swap(a, j - 1, j);
      j := j - 1;
    }
    InsertedAscending(a[..], i, j);
  }

  /** When the moving message stops at `j`, no larger one stands before it, so the
      first `i + 1` messages are in order. */
  lemma InsertedAscending(s: seq<Message>, i: nat, j: nat)
    requires j <= i < |s|
    requires forall k, l :: 0 <= k < l <= i && l != j ==> s[k].msId <= s[l].msId
    requires j > 0 ==> s[j - 1].msId <= s[j].msId
    ensures Ascending(s[..i + 1])
  {
    var sorted := s[..i + 1];
    forall k, l | 0 <= k < l <= i ensures sorted[k].msId <= sorted[l].msId {
      if l == j && k < j - 1 {
        assert s[k].msId <= s[j - 1].msId;
      }
    }
  }

  /** Exchanges two messages of the array. */
  method Swap(a: array<Message>, p: nat, q: nat)
    requires p < a.Length && q < a.Length
    modifies a
    ensures a[p] == old(a[q]) && a[q] == old(a[p])
    ensures forall k :: 0 <= k < a.Length && k != p && k != q ==> a[k] == old(a[k])
    ensures multiset(a[..]) == multiset(old(a[..]))
  {
    a[p], a[q] := a[q], a[p];
  }

  /** With distinct ids the order is fully determined: two ascending orderings of the
      same messages are the same sequence. */
  lemma {:induction false} AscendingOrderUnique(s: seq<Message>, t: seq<Message>)
    requires Ascending(s) && Ascending(t) && DistinctIds(s)
    requires multiset(s) == multiset(t)
    ensures s == t
  {
    if |s| > 0 {
      assert |t| == |multiset(t)| == |multiset(s)| == |s|;
      SameFirst(s, t);
      DropFirst(s, t);
      AscendingOrderUnique(s[1..], t[1..]);
      assert s == [s[0]] + s[1..] && t == [t[0]] + t[1..];
    }
  }

  /** Dropping the common first message keeps both orderings ascending, with distinct
      ids, over the same messages. */
  lemma DropFirst(s: seq<Message>, t: seq<Message>)
    requires Ascending(s) && Ascending(t) && DistinctIds(s)
    requires multiset(s) == multiset(t) && 0 < |s| && 0 < |t| && s[0] == t[0]
    ensures Ascending(s[1..]) && Ascending(t[1..]) && DistinctIds(s[1..])
    ensures multiset(s[1..]) == multiset(t[1..])
  {
    TailAscending(s);
    TailAscending(t);
    TailDistinct(s);
    TailMultiset(s, t);
  }

  lemma TailDistinct(s: seq<Message>)
    requires DistinctIds(s) && 0 < |s|
    ensures DistinctIds(s[1..])
  {
    forall k, l | 0 <= k < l < |s| - 1 ensures s[1..][k].msId != s[1..][l].msId {
      assert s[1..][k] == s[k + 1] && s[1..][l] == s[l + 1];
    }
  }

  lemma TailMultiset(s: seq<Message>, t: seq<Message>)
    requires multiset(s) == multiset(t) && 0 < |s| && 0 < |t| && s[0] == t[0]
    ensures multiset(s[1..]) == multiset(t[1..])
  {
    assert multiset(s[1..]) == multiset(s) - multiset{s[0]} by {
      assert s == [s[0]] + s[1..];
    }
    assert multiset(t[1..]) == multiset(t) - multiset{t[0]} by {
      assert t == [t[0]] + t[1..];
    }
  }

  lemma TailAscending(s: seq<Message>)
    requires Ascending(s) && 0 < |s|
    ensures Ascending(s[1..])
  {
    forall k, l | 0 <= k < l < |s| - 1 ensures s[1..][k].msId <= s[1..][l].msId {
      assert s[1..][k] == s[k + 1] && s[1..][l] == s[l + 1];
    }
  }

  /** Two ascending orderings of the same messages with distinct ids start alike. */
  lemma SameFirst(s: seq<Message>, t: seq<Message>)
    requires Ascending(s) && Ascending(t) && DistinctIds(s)
    requires multiset(s) == multiset(t) && 0 < |s| && 0 < |t|
    ensures s[0] == t[0]
  {
    assert s[0] in multiset(t);
    var j :| 0 <= j < |t| && t[j] == s[0];
    assert t[0] in multiset(s);
    var i :| 0 <= i < |s| && s[i] == t[0];
  }

  /** `whenWasItPublished`: the text before the first `-`, then ` at `, then the text
      after it; a timestamp without `-` comes back whole after ` at `. */
  function WhenWasItPublished(ts: string): (r: string)
    ensures IndexOf(ts, '-') < 0 ==> r == " at " + ts
    ensures 0 <= IndexOf(ts, '-') ==>
      var k := IndexOf(ts, '-');
      r == ts[..k] + " at " + ts[k + 1..]
  {
    var endDate := IndexOf(ts, '-');
    var date := JsSubstring(ts, 0, endDate);
    var time := JsSubstring(ts, endDate + 1, |ts|);
    assert endDate < 0 ==> date == [] && time == ts[0..|ts|] == ts;
    date + " at " + time
  }

  /** On a timestamp the server generated, the page shows the date, ` at `, and the
      time. */
  lemma ServerTimeStampShown(instant: string, hour: nat, minute: nat)
    requires 'T' in instant && hour < 24 && minute < 60
    ensures WhenWasItPublished(GenerateTimeStamp(instant, hour, minute))
            == DateOf(instant) + " at " + TimeOf(hour, minute)
  {
    var date, time := DateOf(instant), TimeOf(hour, minute);
    var ts := GenerateTimeStamp(instant, hour, minute);
    assert ts[..|date|] == date && ts[|date| + 1..] == time;
  }

  /** The prefix `formatImage` puts in front of the base64 image text. */
  const JpegDataUrlPrefix: string := "data:image/jpeg;base64,"

  /** `formatImage`: null stays null, otherwise a JPEG data URL. */
  function FormatImage(img: Option<string>): (r: Option<string>)
    ensures r.None? <==> img.None?
    ensures r.Some? ==> |r.value| == |JpegDataUrlPrefix| + |img.value| && r.value[..|JpegDataUrlPrefix|] == JpegDataUrlPrefix
  {
    match img
    case None => None
    case Some(data) => Some(JpegDataUrlPrefix + data)
  }

  /** The image text can be read back from the data URL. */
  lemma FormatImageReadBack(img: string)
    ensures FormatImage(Some(img)).value[|JpegDataUrlPrefix|..] == img
  {
    assert (JpegDataUrlPrefix + img)[|JpegDataUrlPrefix|..] == img;
  }

  class ChatComponent {
    var thisUser: UserDTO
    var otherUser: Option<UserDTO>
    var channelName: Option<string>
    var newMessage: string
    var connected: bool
    var subscriptions: seq<string>
    var sent: seq<Frame>
    var messages: seq<Message>

    /** Once connected the page has a channel. */
    ghost predicate Valid()
      reads this
    {
      connected ==> channelName.Some?
    }

    constructor (me: UserDTO, other: Option<UserDTO>)
      ensures Valid()
      ensures thisUser == me && otherUser == other && channelName == None && newMessage == ""
      ensures !connected && subscriptions == [] && sent == [] && messages == []
    {
      thisUser, otherUser, channelName, newMessage := me, other, None, "";
      connected, subscriptions, sent, messages := false, [], [], [];
    }

    /** `loadChat`, given the server's answer for the channel: the messages ordered
        by id. */
    method LoadChat(fetched: seq<Message>)
      modifies this
      ensures Ascending(messages) && multiset(messages) == multiset(fetched)
      ensures thisUser == old(thisUser) && otherUser == old(otherUser) && channelName == old(channelName)
      ensures newMessage == old(newMessage) && connected == old(connected)
      ensures subscriptions == old(subscriptions) && sent == old(sent)
    {
      var msgs := new Message[|fetched|](i requires 0 <= i < |fetched| => fetched[i]);
      assert msgs[..] == fetched;
      SortByMsId(msgs);
      messages := msgs[..];
    }

    /** `connectToChat`: names the channel, loads it and subscribes to its topic. The
        page calls it only once the other user is loaded. */
    method ConnectToChat(fetched: seq<Message>)
      requires otherUser.Some?
      modifies this
      ensures Valid() && connected
      ensures thisUser == old(thisUser) && otherUser == old(otherUser)
      ensures channelName == Some(ChannelName(thisUser.id, thisUser.username, otherUser.value.id, otherUser.value.username))
      ensures subscriptions == old(subscriptions) + [SubscribeTopic(channelName.value)]
      ensures Ascending(messages) && multiset(messages) == multiset(fetched)
      ensures newMessage == old(newMessage) && sent == old(sent)
    {
      var other := otherUser.value;
      if thisUser.id > other.id {
        channelName := Some(thisUser.username + "&" + other.username);
      } else {
        channelName := Some(other.username + "&" + thisUser.username);
      }
      LoadChat(fetched);
      connected := true;
      subscriptions := subscriptions + [SubscribeTopic(channelName.value)];
    }

    /** `sendMsg`: an empty input sends nothing; otherwise one frame with the input as
        content goes to the channel, and the input is cleared. */
    method SendMsg()
      requires Valid() && connected
      modifies this
      ensures Valid() && newMessage == ""
      ensures connected && channelName == old(channelName)
      ensures old(newMessage) == "" ==> sent == old(sent)
      ensures old(newMessage) != "" ==>
        sent == old(sent) + [Frame(SendDestination(channelName.value),
                                   MessageFrame(thisUser.username, PendingTimeStamp, old(newMessage)))]
      ensures thisUser == old(thisUser) && otherUser == old(otherUser)
      ensures subscriptions == old(subscriptions) && messages == old(messages)
    {
      if newMessage != "" {
        sent := sent + [Frame(SendDestination(channelName.value),
                              MessageFrame(thisUser.username, PendingTimeStamp, newMessage))];
        newMessage := "";
      }
    }
  }
}
