/** Handlers applied in sequence to a freshly started page, with the
    outcome proved: the acknowledgement lifecycle of one sent message, the
    effect of a redraw that throws, the start-up with embedded nodes, and
    the shallow node merge across two updates. */
module Scenarios {
  import opened Js
  import opened Seqs
  import opened Views
  import opened Store
  import opened Page

  /** The `message_sent` payload of a successful send. */
  function SentEvent(packetId: Value, channel: Value, text: Value): Record
  {
    map["status" := Text("success"), "packetId" := packetId, "channel" := channel, "message" := text]
  }

  /** A successful send into an empty store creates the channel's list
      holding just the pending message. */
  lemma FirstSend(p: Value, channel: Value, text: Value, now: int)
    ensures SentOk(SentEvent(p, channel, text))
    ensures Get(SentEvent(p, channel, text), "packetId") == p
    ensures RecordSent(map[], SentEvent(p, channel, text), now)
      == map[ToJsString(channel) := [SentRecord(SentEvent(p, channel, text), now)]]
  {
    var e := SentEvent(p, channel, text);
    assert Get(e, "channel") == channel;
    assert Get(e, "status") == Text("success");
    var key := ToJsString(channel);
    assert ListAt(map[], key) == [];
    var after := RecordSent(map[], e, now);
    assert after.Keys == {key};
    assert after[key] == [SentRecord(e, now)];
  }

  /** A status update for a packet id reaches the one message carrying it
      in a channel that holds only that message. */
  lemma SingleMessageStatus(key: string, msg: Record, p: Value, s: Value)
    requires SamePacket(msg, p)
    ensures StatusUpdated(map[key := [msg]], p, s) == map[key := [msg["status" := s]]]
  {
    var after := StatusUpdated(map[key := [msg]], p, s);
    assert after.Keys == {key};
    assert after[key] == SetStatus([msg], p, s);
    assert SetStatus([msg], p, s)[0] == msg["status" := s];
    assert SetStatus([msg], p, s) == [msg["status" := s]];
  }

  /** The message a successful send records. */
  function SentMsg(p: Value, channel: Value, text: Value, now: int): Record
  {
    SentRecord(SentEvent(p, channel, text), now)
  }

  /** A freshly started page after one successful send: the channel
      holds the pending message, and timer 1 is armed and recorded for its
      packet. */
  method SentOnFreshPage(p: Value, channel: Value, text: Value, now: int) returns (c: Client)
    ensures fresh(c) && c.Valid() && c.myNodeInfo == Null && c.currentChannel == Number(0)
    ensures c.messages == map[ToJsString(channel) := [SentMsg(p, channel, text, now)]]
    ensures c.timers == map[1 := p] && c.messageTimeouts == map[ToJsString(p) := 1]
  {
    c := new Client(None, None);
    FirstSend(p, channel, text, now);
    c.OnMessageSent(SentEvent(p, channel, text), now);
  }

  /** ... then acknowledged: the timer is disarmed and its record gone. */
  method AckedOnFreshPage(p: Value, channel: Value, text: Value, now: int) returns (c: Client)
    requires StrictEquals(p, p)
    ensures fresh(c) && c.Valid() && c.myNodeInfo == Null && c.currentChannel == Number(0)
    ensures c.messages == map[ToJsString(channel) := [SentMsg(p, channel, text, now)["status" := Text("acked")]]]
    ensures c.timers == map[] && c.messageTimeouts == map[]
  {
    c := SentOnFreshPage(p, channel, text, now);
    SingleMessageStatus(ToJsString(channel), SentMsg(p, channel, text, now), p, Text("acked"));
    c.OnMessageAck(map["packetId" := p]);
  }

  /** ... or timed out by the server: the record is gone, the timer still
      armed. */
  method ServerTimedOutOnFreshPage(p: Value, channel: Value, text: Value, now: int) returns (c: Client)
    requires StrictEquals(p, p)
    ensures fresh(c) && c.Valid() && c.myNodeInfo == Null && c.currentChannel == Number(0)
    ensures c.messages == map[ToJsString(channel) := [SentMsg(p, channel, text, now)["status" := Text("timeout")]]]
    ensures c.timers == map[1 := p] && c.messageTimeouts == map[]
  {
    c := SentOnFreshPage(p, channel, text, now);
    SingleMessageStatus(ToJsString(channel), SentMsg(p, channel, text, now), p, Text("timeout"));
    c.OnMessageAckTimeout(map["packetId" := p]);
  }

  /** ... or timed out by the local timer: the timer is disarmed, its
      record kept. */
  method LocallyTimedOutOnFreshPage(p: Value, channel: Value, text: Value, now: int) returns (c: Client)
    requires StrictEquals(p, p)
    ensures fresh(c) && c.Valid() && c.myNodeInfo == Null && c.currentChannel == Number(0)
    ensures c.messages == map[ToJsString(channel) := [SentMsg(p, channel, text, now)["status" := Text("timeout")]]]
    ensures c.timers == map[] && c.messageTimeouts == map[ToJsString(p) := 1]
  {
    c := SentOnFreshPage(p, channel, text, now);
    SingleMessageStatus(ToJsString(channel), SentMsg(p, channel, text, now), p, Text("timeout"));
    var fired := c.TimerFires(1);
  }

  /** Sent, acknowledged, then a late `message_ack_timeout`: the ack removed
      the timer record, so the timeout report changes nothing and the
      message stays acked (green). */
  method AckThenLateTimeout(p: Value, channel: Value, text: Value, now: int) returns (status: Value, dot: Dot)
    requires StrictEquals(p, p)
    ensures status == Text("acked") && dot == Green
  {
    var c := AckedOnFreshPage(p, channel, text, now);
    c.OnMessageAckTimeout(map["packetId" := p]);
    var msg := c.messages[ToJsString(channel)][0];
    status, dot := Get(msg, "status"), StatusDot(msg);
  }

  /** Sent, then the server's `message_ack_timeout`, then a late ack: the
      message is acked, but the local timer is still armed. */
  method LateAckOnFreshPage(p: Value, channel: Value, text: Value, now: int) returns (c: Client)
    requires StrictEquals(p, p)
    ensures fresh(c) && c.Valid() && c.myNodeInfo == Null && c.currentChannel == Number(0)
    ensures c.messages == map[ToJsString(channel) := [SentMsg(p, channel, text, now)["status" := Text("timeout")]["status" := Text("acked")]]]
    ensures c.timers == map[1 := p]
  {
    c := ServerTimedOutOnFreshPage(p, channel, text, now);
    SingleMessageStatus(ToJsString(channel), SentMsg(p, channel, text, now)["status" := Text("timeout")], p, Text("acked"));
    c.OnMessageAck(map["packetId" := p]);
  }

  /** ... and then the local 60-second timer fires: the server timeout did
      not cancel it, so it overwrites the ack and the message ends timed
      out. */
  method LateAckThenLocalTimer(p: Value, channel: Value, text: Value, now: int) returns (status: Value, dot: Dot)
    requires StrictEquals(p, p)
    ensures status == Text("timeout") && dot == Red
  {
    var c := LateAckOnFreshPage(p, channel, text, now);
    SingleMessageStatus(ToJsString(channel),
      SentMsg(p, channel, text, now)["status" := Text("timeout")]["status" := Text("acked")], p, Text("timeout"));
    var fired := c.TimerFires(1);
    var msg := c.messages[ToJsString(channel)][0];
    status, dot := Get(msg, "status"), StatusDot(msg);
  }

  /** Sent, the local timer fires, then an ack arrives: the timer record is
      still there, and the ack turns the timed-out message green again. */
  method AckAfterLocalTimeout(p: Value, channel: Value, text: Value, now: int) returns (status: Value, dot: Dot)
    requires StrictEquals(p, p)
    ensures status == Text("acked") && dot == Green
  {
    var c := LocallyTimedOutOnFreshPage(p, channel, text, now);
    SingleMessageStatus(ToJsString(channel), SentMsg(p, channel, text, now)["status" := Text("timeout")], p, Text("acked"));
    c.OnMessageAck(map["packetId" := p]);
    var msg := c.messages[ToJsString(channel)][0];
    status, dot := Get(msg, "status"), StatusDot(msg);
  }

  /** Two `node_updated` events for the same node, one carrying device
      metrics with a battery level, the next with a voltage only: the merge
      is shallow, so the second replaces the whole metrics object and the
      battery level is gone. */
  method TwoMetricsUpdates(num: int, battery: int, voltage: int) returns (metrics: Value)
    requires num != 0
    ensures metrics == Object(map["voltage" := Number(voltage)])
  {
    var c := new Client(None, None);
    var first := map["num" := Number(num), "deviceMetrics" := Object(map["batteryLevel" := Number(battery)])];
    var second := map["num" := Number(num), "deviceMetrics" := Object(map["voltage" := Number(voltage)])];
    var ok1 := c.OnNodeUpdated(first);
    var ok2 := c.OnNodeUpdated(second);
    var key := ToJsString(Number(num));
    NodeUpdatedEffect(c.nodes, second);
    metrics := Get(c.nodes[key], "deviceMetrics");
  }

  /** The message recorded for a sent event is one's own, pending, and
      carries the event's text. */
  lemma SentRecordFields(p: Value, channel: Value, text: Value, now: int)
    ensures var m := SentRecord(SentEvent(p, channel, text), now);
      FromYou(m) && Get(m, "text") == text && Get(m, "status") == Text("pending")
  {
    assert Get(SentEvent(p, channel, text), "message") == text;
  }

  /** Channel 0 holding one own message with text fails to redraw while
      the local node has no name. */
  lemma SingleOwnMessageThrows(msg: Record, info: Value)
    requires FromYou(msg) && HasText(msg) && NodeNameThrows(info)
    ensures RedrawThrows(map["0" := [msg]], Number(0), info)
  {
    assert ToJsString(Number(0)) == "0";
    assert Filter(HasText, [msg]) == [msg] by {
      assert [msg][..0] == [];
    }
    assert msg in VisibleMessages(map["0" := [msg]], Number(0));
  }

  /** A fresh page told of a local node without a `user`. */
  method NamelessLocalNodeOnFreshPage() returns (c: Client)
    ensures fresh(c) && c.Valid() && NodeNameThrows(c.myNodeInfo) && c.currentChannel == Number(0)
    ensures c.messages == map[] && c.timers == map[] && c.messageTimeouts == map[]
  {
    c := new Client(None, None);
    var accepted := c.OnNodeUpdated(map["num" := Number(5), "isLocal" := Bool(true)]);
  }

  /** ... then a successful send on the selected channel: drawing the own
      message throws while reading the local node's name, so no timer is
      armed or recorded. */
  method SentWithNamelessLocalNode(p: Value, text: string, now: int) returns (c: Client)
    requires text != ""
    ensures fresh(c) && c.Valid() && c.timers == map[] && c.messageTimeouts == map[]
    ensures c.messages == map["0" := [SentMsg(p, Number(0), Text(text), now)]]
  {
    c := NamelessLocalNodeOnFreshPage();
    assert ToJsString(Number(0)) == "0";
    FirstSend(p, Number(0), Text(text), now);
    SentRecordFields(p, Number(0), Text(text), now);
    SingleOwnMessageThrows(SentMsg(p, Number(0), Text(text), now), c.myNodeInfo);
    c.OnMessageSent(SentEvent(p, Number(0), Text(text)), now);
  }

  /** ... and a server timeout for the packet is then ignored: the message
      stays pending. */
  method NamelessLocalNodeLeavesSendPending(p: Value, text: string, now: int) returns (armed: bool, status: Value, dot: Dot)
    requires text != ""
    ensures !armed && status == Text("pending") && dot == Yellow
  {
    var c := SentWithNamelessLocalNode(p, text, now);
    SentRecordFields(p, Number(0), Text(text), now);
    armed := c.timers != map[] || c.messageTimeouts != map[];
    c.OnMessageAckTimeout(map["packetId" := p]);
    var msg := c.messages["0"][0];
    status, dot := Get(msg, "status"), StatusDot(msg);
  }

  /** A node embedded in the page with a valid position: drawing the node
      list at start-up places a marker before the map exists, the start-up
      is abandoned, and the embedded messages are never loaded. */
  method PositionedNodeDropsEmbeddedMessages(embedded: Messages) returns (nodes: Nodes, messages: Messages)
    ensures |nodes| == 1 && messages == map[]
  {
    var position := Object(map["latitude" := Number(10), "longitude" := Number(20)]);
    var node := map["num" := Number(1), "position" := position];
    assert HasValidPosition(node);
    var c := new Client(Some(map["1" := node]), Some(embedded));
    nodes, messages := c.nodes, c.messages;
  }

  /** The same start-up with a node that has neither a position nor any
      field whose drawing throws: the embedded messages are loaded. */
  method PlainNodeKeepsEmbeddedMessages(embedded: Messages) returns (nodes: Nodes, messages: Messages)
    ensures |nodes| == 1 && messages == embedded
  {
    var node := map["num" := Number(1)];
    var c := new Client(Some(map["1" := node]), Some(embedded));
    assert !NodeListDrawThrowsBeforeMap(map["1" := node]) by {
      assert !NodeCardThrows(node) && !HasValidPosition(node);
    }
    nodes, messages := c.nodes, c.messages;
  }
}
