/** The page's shared state and the socket handlers that update it in
    place: the message store, the table of pending acknowledgement timers,
    the node cache, the local node's info and the selected channel.
    Browser timers are modelled as a map from timer handle to the packet id
    whose callback will report a timeout; a timer fires only when the
    caller (the event loop) invokes `TimerFires`. */
module Page {
  import opened Js
  import opened Seqs
  import opened Views
  import opened Store

  class Client {
    var messages: Messages
    /** packet id key -> handle of the timer started for it */
    var messageTimeouts: map<string, nat>
    /** armed timers: handle -> packet id its callback marks as timed out */
    var timers: map<nat, Value>
    var nextTimer: nat
    var nodes: Nodes
    var myNodeInfo: Value
    var currentChannel: Value

    /** Timer handles are positive (so always truthy) and the next handle
        is fresh. */
    ghost predicate Valid()
      reads this
    {
      && nextTimer >= 1
      && (forall h :: h in timers ==> 1 <= h < nextTimer)
      && (forall k :: k in messageTimeouts ==> 1 <= messageTimeouts[k] < nextTimer)
    }

    /** The page's start-up: the nodes embedded in the page when there are
        any, then the embedded messages when they are defined. Drawing the
        embedded nodes happens before the map exists; when that throws, the
        start-up is abandoned and the store stays empty. */
    constructor (embeddedNodes: Option<Nodes>, embeddedMessages: Option<Messages>)
      ensures Valid()
      ensures nodes == (if embeddedNodes.Some? && |embeddedNodes.value| > 0 then embeddedNodes.value else map[])
      ensures messages ==
        if embeddedNodes.Some? && |embeddedNodes.value| > 0 && NodeListDrawThrowsBeforeMap(embeddedNodes.value) then map[]
        else if embeddedMessages.Some? then embeddedMessages.value
        else map[]
      ensures messageTimeouts == map[] && timers == map[] && nextTimer == 1
      ensures myNodeInfo == Null && currentChannel == Number(0)
    {
      currentChannel := Number(0);
      nodes := map[];
      messages := map[];
      messageTimeouts := map[];
      timers := map[];
      nextTimer := 1;
      myNodeInfo := Null;
      if embeddedNodes.Some? && |embeddedNodes.value| > 0 {
        nodes := embeddedNodes.value;
      }
      var aborted := embeddedNodes.Some? && |embeddedNodes.value| > 0
        && NodeListDrawThrowsBeforeMap(embeddedNodes.value);
      if !aborted && embeddedMessages.Some? {
        messages := embeddedMessages.value;
      }
    }

    /** `new_message`: upsert by packet id into the channel's list. Reports
        whether the message was stored and whether it is for the selected
        channel (the page is then redrawn). */
    method OnNewMessage(data: Record) returns (accepted: bool, current: bool)
      requires Valid()
      modifies this
      ensures Valid()
      ensures accepted == (IncomingChannel(data) != Undefined)
      ensures messages == ReceiveMessage(old(messages), data)
      ensures current == (accepted && StrictEquals(IncomingChannel(data), currentChannel))
      ensures messageTimeouts == old(messageTimeouts) && timers == old(timers) && nextTimer == old(nextTimer)
      ensures nodes == old(nodes) && myNodeInfo == old(myNodeInfo) && currentChannel == old(currentChannel)
    {
      var messageData := MessagePayload(data);
      var channel := Prop(messageData, "channel");
      if !Truthy(messageData) || channel.Undefined? {
        return false, false;
      }
      var key := ToJsString(channel);
      if key !in messages {
        messages := messages[key := []];
      }
      var existing := FindIndex(messages[key], Get(messageData.fields, "packetId"));
      if existing != -1 {
        messages := messages[key := messages[key][existing := messageData.fields]];
      } else {
        messages := messages[key := messages[key] + [messageData.fields]];
      }
      accepted := true;
      current := StrictEquals(channel, currentChannel);
    }

    /** `message_sent`: on success, append the own message as pending,
        redraw, and start its 60-second timer. When the redraw throws, the
        timer is never started. */
    method OnMessageSent(data: Record, now: int)
      requires Valid()
      modifies this
      ensures Valid()
      ensures messages == if SentOk(data) then RecordSent(old(messages), data, now) else old(messages)
      ensures SentOk(data) && !RedrawThrows(messages, currentChannel, myNodeInfo) ==>
        && messageTimeouts == old(messageTimeouts)[ToJsString(Get(data, "packetId")) := old(nextTimer)]
        && old(nextTimer) !in old(timers)
        && timers == old(timers)[old(nextTimer) := Get(data, "packetId")]
        && nextTimer == old(nextTimer) + 1
      ensures !SentOk(data) || RedrawThrows(messages, currentChannel, myNodeInfo) ==>
        messageTimeouts == old(messageTimeouts) && timers == old(timers) && nextTimer == old(nextTimer)
      ensures nodes == old(nodes) && myNodeInfo == old(myNodeInfo) && currentChannel == old(currentChannel)
    {
      if SentOk(data) {
        var sent := SentRecord(data, now);
        var key := ToJsString(Get(data, "channel"));
        if key !in messages {
          messages := messages[key := []];
        }
        messages := messages[key := messages[key] + [sent]];
        assert messages == RecordSent(old(messages), data, now);
        var shown, failed := UpdateMessages();
        if failed {
          return;
        }
        StartTimer(Get(data, "packetId"));
      }
    }

    /** `messageTimeouts[packetId] = setTimeout(...)`: arm a timer with a
        fresh handle for the packet and record that handle under its key. */
    method StartTimer(packetId: Value)
      requires Valid()
      modifies this`timers, this`nextTimer, this`messageTimeouts
      ensures Valid()
      ensures old(nextTimer) !in old(timers)
      ensures timers == old(timers)[old(nextTimer) := packetId] && nextTimer == old(nextTimer) + 1
      ensures messageTimeouts == old(messageTimeouts)[ToJsString(packetId) := old(nextTimer)]
    {
      var handle := nextTimer;
      timers := timers[handle := packetId];
      nextTimer := nextTimer + 1;
      messageTimeouts := messageTimeouts[ToJsString(packetId) := handle];
    }

    /** `message_ack`: cancel the packet's timer if one is recorded, then
        mark its messages acked. */
    method OnMessageAck(data: Record)
      requires Valid()
      modifies this
      ensures Valid()
      ensures var key := ToJsString(Get(data, "packetId"));
        && messageTimeouts == old(messageTimeouts) - {key}
        && timers == (if key in old(messageTimeouts) then old(timers) - {old(messageTimeouts)[key]} else old(timers))
      ensures messages == StatusUpdated(old(messages), Get(data, "packetId"), Text("acked"))
      ensures nextTimer == old(nextTimer) && nodes == old(nodes)
      ensures myNodeInfo == old(myNodeInfo) && currentChannel == old(currentChannel)
    {
      var packetId := Get(data, "packetId");
      var key := ToJsString(packetId);
      if key in messageTimeouts && messageTimeouts[key] != 0 {
        timers := timers - {messageTimeouts[key]};
        messageTimeouts := messageTimeouts - {key};
      }
      var failed := UpdateMessageStatus(packetId, Text("acked"));
    }

    /** `message_ack_timeout`: only while a timer is recorded for the packet,
        mark its messages timed out and, unless the redraw throws, forget
        the record. The timer itself is not cancelled. */
    method OnMessageAckTimeout(data: Record)
      requires Valid()
      modifies this
      ensures Valid()
      ensures var key := ToJsString(Get(data, "packetId"));
        if key in old(messageTimeouts) then
          && messages == StatusUpdated(old(messages), Get(data, "packetId"), Text("timeout"))
          && messageTimeouts ==
               if RedrawThrows(messages, currentChannel, myNodeInfo) then old(messageTimeouts)
               else old(messageTimeouts) - {key}
        else
          messages == old(messages) && messageTimeouts == old(messageTimeouts)
      ensures timers == old(timers) && nextTimer == old(nextTimer) && nodes == old(nodes)
      ensures myNodeInfo == old(myNodeInfo) && currentChannel == old(currentChannel)
    {
      var packetId := Get(data, "packetId");
      var key := ToJsString(packetId);
      if key in messageTimeouts && messageTimeouts[key] != 0 {
        var failed := UpdateMessageStatus(packetId, Text("timeout"));
        if !failed {
          messageTimeouts := messageTimeouts - {key};
        }
      }
    }

    /** The callback of the timer started by `message_sent`: it marks the
        packet's messages timed out, whatever their status, and leaves the
        timer table alone. */
    method TimerFires(handle: nat) returns (fired: bool)
      requires Valid()
      modifies this
      ensures Valid()
      ensures fired == (handle in old(timers))
      ensures fired ==>
        && messages == StatusUpdated(old(messages), old(timers)[handle], Text("timeout"))
        && timers == old(timers) - {handle}
      ensures !fired ==> messages == old(messages) && timers == old(timers)
      ensures messageTimeouts == old(messageTimeouts) && nextTimer == old(nextTimer) && nodes == old(nodes)
      ensures myNodeInfo == old(myNodeInfo) && currentChannel == old(currentChannel)
    {
      fired := handle in timers;
      if fired {
        var packetId := timers[handle];
        timers := timers - {handle};
        var failed := UpdateMessageStatus(packetId, Text("timeout"));
      }
    }

    /** `routing_error`: the packet's messages become `failed`. */
    method OnRoutingError(data: Record)
      requires Valid()
      modifies this
      ensures Valid()
      ensures messages == StatusUpdated(old(messages), Get(data, "packetId"), Text("failed"))
      ensures messageTimeouts == old(messageTimeouts) && timers == old(timers) && nextTimer == old(nextTimer)
      ensures nodes == old(nodes) && myNodeInfo == old(myNodeInfo) && currentChannel == old(currentChannel)
    {
      var failed := UpdateMessageStatus(Get(data, "packetId"), Text("failed"));
    }

    /** `update_message_status`: the packet's messages take the reported
        status, whatever it is. */
    method OnUpdateMessageStatus(data: Record)
      requires Valid()
      modifies this
      ensures Valid()
      ensures messages == StatusUpdated(old(messages), Get(data, "packetId"), Get(data, "status"))
      ensures messageTimeouts == old(messageTimeouts) && timers == old(timers) && nextTimer == old(nextTimer)
      ensures nodes == old(nodes) && myNodeInfo == old(myNodeInfo) && currentChannel == old(currentChannel)
    {
      var failed := UpdateMessageStatus(Get(data, "packetId"), Get(data, "status"));
    }

    /** `updateMessageStatus`: visit every channel and every message in it,
        setting the status of each whose packet id is strictly equal, then
        redraw; reports whether the redraw throws. */
    method UpdateMessageStatus(packetId: Value, status: Value) returns (failed: bool)
      requires Valid()
      modifies this`messages
      ensures Valid()
      ensures messages == StatusUpdated(old(messages), packetId, status)
      ensures failed == RedrawThrows(messages, currentChannel, myNodeInfo)
    {
      ghost var before := messages;
      var channels := messages.Keys;
      while channels != {}
        invariant channels <= before.Keys && messages.Keys == before.Keys
        invariant forall k :: k in before && k !in channels ==> messages[k] == SetStatus(before[k], packetId, status)
        invariant forall k :: k in channels ==> messages[k] == before[k]
        decreases channels
      {
        var channel :| channel in channels;
        UpdateChannelStatus(channel, packetId, status);
        channels := channels - {channel};
      }
      var shown;
      shown, failed := UpdateMessages();
    }

    /** The inner loop of `updateMessageStatus`, over one channel's list. */
    method UpdateChannelStatus(channel: string, packetId: Value, status: Value)
      requires channel in messages
      modifies this`messages
      ensures messages == old(messages)[channel := SetStatus(old(messages)[channel], packetId, status)]
    {
      var i := 0;
      while i < |messages[channel]|
        invariant messages.Keys == old(messages).Keys && |messages[channel]| == |old(messages)[channel]|
        invariant 0 <= i <= |messages[channel]|
        invariant forall j :: 0 <= j < i ==> messages[channel][j] == WithStatus(old(messages)[channel][j], packetId, status)
        invariant forall j :: i <= j < |messages[channel]| ==> messages[channel][j] == old(messages)[channel][j]
        invariant forall k :: k in messages && k != channel ==> messages[k] == old(messages)[k]
      {
        var msg := messages[channel][i];
        if StrictEquals(Get(msg, "packetId"), packetId) {
          messages := messages[channel := messages[channel][i := msg["status" := status]]];
        }
        i := i + 1;
      }
      assert messages[channel] == SetStatus(old(messages)[channel], packetId, status);
    }

    /** `updateNode(nodeData)`: merge under `nodeData.num`, unchecked. */
    method UpdateNode(nodeData: Record)
      requires Valid()
      modifies this
      ensures Valid()
      ensures nodes == UpdateNodeByNum(old(nodes), nodeData)
      ensures messages == old(messages) && messageTimeouts == old(messageTimeouts)
      ensures timers == old(timers) && nextTimer == old(nextTimer)
      ensures myNodeInfo == old(myNodeInfo) && currentChannel == old(currentChannel)
    {
      var nodeId := ToJsString(Get(nodeData, "num"));
      if nodeId !in nodes {
        nodes := nodes[nodeId := map[]];
      }
      nodes := nodes[nodeId := Assign(nodes[nodeId], nodeData)];
    }

    /** `node_updated`: reject data with neither a truthy `num` nor a truthy
        `user.id`; otherwise merge it shallowly into the cached record, and
        remember it as the local node's info when `isLocal` is truthy. */
    method OnNodeUpdated(data: Record) returns (accepted: bool)
      requires Valid()
      modifies this
      ensures Valid()
      ensures accepted == NodeKey(data).Some?
      ensures nodes == NodeUpdated(old(nodes), data)
      ensures myNodeInfo == (if accepted && Truthy(Get(data, "isLocal")) then Object(data) else old(myNodeInfo))
      ensures messages == old(messages) && messageTimeouts == old(messageTimeouts)
      ensures timers == old(timers) && nextTimer == old(nextTimer) && currentChannel == old(currentChannel)
    {
      var num := Get(data, "num");
      var user := Get(data, "user");
      if !Truthy(num) && !Truthy(JsAnd(user, Prop(user, "id"))) {
        return false;
      }
      var nodeId := ToJsString(JsOr(num, JsAnd(user, Prop(user, "id"))));
      if nodeId !in nodes {
        nodes := nodes[nodeId := map[]];
      }
      nodes := nodes[nodeId := Assign(nodes[nodeId], data)];
      if Truthy(Get(data, "isLocal")) {
        myNodeInfo := Object(data);
      }
      accepted := true;
    }

    /** `serial_connected`: a truthy `initialNodeInfo` becomes the local
        node's info and is merged into the cache by its number. */
    method OnSerialConnected(data: Record)
      requires Valid()
      modifies this
      ensures Valid()
      ensures var info := Get(data, "initialNodeInfo");
        if Truthy(info) then
          && myNodeInfo == info
          && nodes == UpdateNodeByNum(old(nodes), if info.Object? then info.fields else map[])
        else
          myNodeInfo == old(myNodeInfo) && nodes == old(nodes)
      ensures messages == old(messages) && messageTimeouts == old(messageTimeouts)
      ensures timers == old(timers) && nextTimer == old(nextTimer) && currentChannel == old(currentChannel)
    {
      var info := Get(data, "initialNodeInfo");
      if Truthy(info) {
        myNodeInfo := info;
        UpdateNode(if info.Object? then info.fields else map[]);
      }
    }

    /** `serial_disconnected`: forget every node and message. Pending timers
        and their records survive. */
    method OnSerialDisconnected()
      requires Valid()
      modifies this
      ensures Valid()
      ensures nodes == map[] && messages == map[]
      ensures messageTimeouts == old(messageTimeouts) && timers == old(timers) && nextTimer == old(nextTimer)
      ensures myNodeInfo == old(myNodeInfo) && currentChannel == old(currentChannel)
    {
      nodes := map[];
      messages := map[];
    }

    /** `all_messages`: replace the whole store, by an empty one when the
        payload carries none. */
    method OnAllMessages(loaded: Option<Messages>)
      requires Valid()
      modifies this
      ensures Valid()
      ensures messages == (if loaded.Some? then loaded.value else map[])
      ensures messageTimeouts == old(messageTimeouts) && timers == old(timers) && nextTimer == old(nextTimer)
      ensures nodes == old(nodes) && myNodeInfo == old(myNodeInfo) && currentChannel == old(currentChannel)
    {
      messages := if loaded.Some? then loaded.value else map[];
    }

    /** The channel selector's change handler: `parseInt` of the chosen
        option's value. */
    method OnChannelSelected(optionValue: string)
      requires Valid()
      modifies this
      ensures Valid()
      ensures currentChannel == ParseInt(optionValue)
      ensures messages == old(messages) && messageTimeouts == old(messageTimeouts)
      ensures timers == old(timers) && nextTimer == old(nextTimer)
      ensures nodes == old(nodes) && myNodeInfo == old(myNodeInfo)
    {
      currentChannel := ParseInt(optionValue);
    }

    /** `updateMessages`: the messages drawn for the selected channel, in
        stored order, skipping those without a truthy text. Drawing one's
        own message reads the local node's name; when that throws, the
        messages drawn so far are those before it and `failed` is set. */
    method UpdateMessages() returns (shown: seq<Record>, failed: bool)
      ensures failed == RedrawThrows(messages, currentChannel, myNodeInfo)
      ensures !failed ==> shown == VisibleMessages(messages, currentChannel)
      ensures failed ==>
        var visible := VisibleMessages(messages, currentChannel);
        && |shown| < |visible| && shown == visible[..|shown|] && FromYou(visible[|shown|])
        && forall m :: m in shown ==> !FromYou(m)
    {
      shown, failed := [], false;
      var key := ToJsString(currentChannel);
      if key !in messages {
        return;
      }
      var list := messages[key];
      var i := 0;
      while i < |list|
        invariant 0 <= i <= |list|
        invariant shown == Filter(HasText, list[..i])
        invariant NodeNameThrows(myNodeInfo) ==> forall m :: m in shown ==> !FromYou(m)
      {
        FilterSnoc(HasText, list[..i], list[i]);
        assert list[..i + 1] == list[..i] + [list[i]];
        if HasText(list[i]) {
          if StrictEquals(Get(list[i], "sender"), Text("You")) && NodeNameThrows(myNodeInfo) {
            FilterNextKept(HasText, list, i);
            assert list[i] in VisibleMessages(messages, currentChannel);
            failed := true;
            return;
          }
          shown := shown + [list[i]];
        }
        i := i + 1;
      }
      assert list[..|list|] == list;
    }
  }
}
