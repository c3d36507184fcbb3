/** The client's two stores as values, with the change each socket event
    makes to them: the message store (channel key to ordered list of
    message objects) and the node cache (node key to node object). The
    class in `Client` keeps these as fields and is specified by these
    functions. */
module Store {
  import opened Js

  /** channel key -> messages in arrival order */
  type Messages = map<string, seq<Record>>
  /** node key -> node object */
  type Nodes = map<string, Record>

  function ListAt(store: Messages, key: string): seq<Record>
  {
    if key in store then store[key] else []
  }

  // ---- matching by packet id ----

  /** `msg.packetId === packetId` */
  predicate SamePacket(msg: Record, packetId: Value)
  {
    StrictEquals(Get(msg, "packetId"), packetId)
  }

  predicate HasMatch(list: seq<Record>, packetId: Value)
  {
    exists j :: 0 <= j < |list| && SamePacket(list[j], packetId)
  }

  /** `j` is the first position whose message carries `packetId`. */
  predicate FirstMatchAt(list: seq<Record>, packetId: Value, j: int)
  {
    && 0 <= j < |list|
    && SamePacket(list[j], packetId)
    && forall j' :: 0 <= j' < j ==> !SamePacket(list[j'], packetId)
  }

  /** `list.findIndex(msg => msg.packetId === packetId)` */
  function FindIndex(list: seq<Record>, packetId: Value): (i: int)
    ensures -1 <= i < |list|
    ensures i >= 0 ==> FirstMatchAt(list, packetId, i)
    ensures i == -1 <==> !HasMatch(list, packetId)
  {
    if list == [] then -1
    else if SamePacket(list[0], packetId) then 0
    else
      var i := FindIndex(list[1..], packetId);
      assert forall j :: 1 <= j < |list| ==> list[j] == list[1..][j - 1];
      if i == -1 then -1 else i + 1
  }

  // ---- new_message ----

  /** Replaces the first message with the same packet id, or appends. */
  function Upsert(list: seq<Record>, msg: Record): seq<Record>
  {
    var i := FindIndex(list, Get(msg, "packetId"));
    if i != -1 then list[i := msg] else list + [msg]
  }

  /** `data.raw_message || data` */
  function MessagePayload(data: Record): Value
  {
    JsOr(Get(data, "raw_message"), Object(data))
  }

  function IncomingChannel(data: Record): Value
  {
    Prop(MessagePayload(data), "channel")
  }

  /** The store after a `new_message` event. */
  function ReceiveMessage(store: Messages, data: Record): Messages
  {
    var channel := IncomingChannel(data);
    if channel == Undefined then store
    else
      var key := ToJsString(channel);
      store[key := Upsert(ListAt(store, key), MessagePayload(data).fields)]
  }

  /** An incoming message without a channel is dropped. One with a channel
      replaces, at the same position, the first stored message with the same
      packet id, or else is appended (to a new list if the channel had
      none). No other channel changes. */
  lemma ReceiveMessageUpserts(store: Messages, data: Record)
    ensures IncomingChannel(data) == Undefined ==> ReceiveMessage(store, data) == store
    ensures IncomingChannel(data) != Undefined ==>
      var key := ToJsString(IncomingChannel(data));
      var msg := MessagePayload(data).fields;
      var before := ListAt(store, key);
      var after := ReceiveMessage(store, data)[key];
      && ReceiveMessage(store, data).Keys == store.Keys + {key}
      && (forall k :: k in store && k != key ==> ReceiveMessage(store, data)[k] == store[k])
      && (HasMatch(before, Get(msg, "packetId")) ==>
            && |after| == |before|
            && exists i :: FirstMatchAt(before, Get(msg, "packetId"), i) && after == before[i := msg])
      && (!HasMatch(before, Get(msg, "packetId")) ==> after == before + [msg])
  {
    if IncomingChannel(data) != Undefined {
      var msg := MessagePayload(data).fields;
      var key := ToJsString(IncomingChannel(data));
      var before := ListAt(store, key);
      var i := FindIndex(before, Get(msg, "packetId"));
      if i != -1 {
        assert FirstMatchAt(before, Get(msg, "packetId"), i);
      }
    }
  }

  // ---- updateMessageStatus ----

  function WithStatus(msg: Record, packetId: Value, status: Value): Record
  {
    if SamePacket(msg, packetId) then msg["status" := status] else msg
  }

  function SetStatus(list: seq<Record>, packetId: Value, status: Value): seq<Record>
  {
    seq(|list|, i requires 0 <= i < |list| => WithStatus(list[i], packetId, status))
  }

  /** The store after `updateMessageStatus(packetId, status)`. */
  function StatusUpdated(store: Messages, packetId: Value, status: Value): Messages
  {
    map k | k in store :: SetStatus(store[k], packetId, status)
  }

  /** Every message with that packet id, in every channel, gets the new
      status and keeps its other properties; every other message, and the
      channels, their order and their lengths, stay as they were. No
      earlier status is protected. */
  lemma StatusUpdateEffect(store: Messages, packetId: Value, status: Value)
    ensures StatusUpdated(store, packetId, status).Keys == store.Keys
    ensures forall k :: k in store ==> |StatusUpdated(store, packetId, status)[k]| == |store[k]|
    ensures forall k, i :: k in store && 0 <= i < |store[k]| && SamePacket(store[k][i], packetId) ==>
              var m := StatusUpdated(store, packetId, status)[k][i];
              && Get(m, "status") == status
              && m.Keys == store[k][i].Keys + {"status"}
              && forall f :: f in store[k][i] && f != "status" ==> m[f] == store[k][i][f]
    ensures forall k, i :: k in store && 0 <= i < |store[k]| && !SamePacket(store[k][i], packetId) ==>
              StatusUpdated(store, packetId, status)[k][i] == store[k][i]
  {
  }

  /** Setting a status keeps the packet id the update matches on. */
  lemma WithStatusKeepsPacket(msg: Record, packetId: Value, status: Value)
    ensures Get(WithStatus(msg, packetId, status), "packetId") == Get(msg, "packetId")
  {
  }

  /** One message under two updates for one packet id. */
  lemma WithStatusLastWins(msg: Record, packetId: Value, s1: Value, s2: Value)
    ensures WithStatus(WithStatus(msg, packetId, s1), packetId, s2) == WithStatus(msg, packetId, s2)
  {
    WithStatusKeepsPacket(msg, packetId, s1);
  }

  /** Of two status updates for the same packet id the later one wins. */
  lemma {:induction false} StatusUpdateLastWins(store: Messages, packetId: Value, s1: Value, s2: Value)
    ensures StatusUpdated(StatusUpdated(store, packetId, s1), packetId, s2) == StatusUpdated(store, packetId, s2)
  {
    var a := StatusUpdated(StatusUpdated(store, packetId, s1), packetId, s2);
    var b := StatusUpdated(store, packetId, s2);
    forall k | k in store ensures a[k] == b[k] {
      forall i | 0 <= i < |store[k]| ensures a[k][i] == b[k][i] {
        WithStatusLastWins(store[k][i], packetId, s1, s2);
      }
    }
  }

  /** One message under updates for two packet ids that are not strictly
      equal: at most one of them applies. */
  lemma WithStatusCommutes(msg: Record, p: Value, q: Value, s: Value, t: Value)
    requires !StrictEquals(p, q)
    ensures WithStatus(WithStatus(msg, p, s), q, t) == WithStatus(WithStatus(msg, q, t), p, s)
  {
    var id := Get(msg, "packetId");
    WithStatusKeepsPacket(msg, p, s);
    WithStatusKeepsPacket(msg, q, t);
    StrictEqualsLaws(p, id, q);
    StrictEqualsLaws(id, p, q);
    StrictEqualsLaws(id, q, p);
  }

  /** Status updates for two packet ids that are not strictly equal act on
      disjoint messages, so their order does not matter. */
  lemma {:induction false} StatusUpdatesCommute(store: Messages, p: Value, q: Value, s: Value, t: Value)
    requires !StrictEquals(p, q)
    ensures StatusUpdated(StatusUpdated(store, p, s), q, t) == StatusUpdated(StatusUpdated(store, q, t), p, s)
  {
    var a := StatusUpdated(StatusUpdated(store, p, s), q, t);
    var b := StatusUpdated(StatusUpdated(store, q, t), p, s);
    forall k | k in store ensures a[k] == b[k] {
      forall i | 0 <= i < |store[k]| ensures a[k][i] == b[k][i] {
        WithStatusCommutes(store[k][i], p, q, s, t);
      }
    }
  }

  // ---- message_sent ----

  /** `data.status === 'success'` */
  predicate SentOk(data: Record)
  {
    StrictEquals(Get(data, "status"), Text("success"))
  }

  /** The message object the client builds for its own sent message;
      `now` is `Math.floor(Date.now() / 1000)`. */
  function SentRecord(data: Record, now: int): Record
  {
    map[
      "sender" := Text("You"),
      "text" := Get(data, "message"),
      "channel" := Get(data, "channel"),
      "timestamp" := JsOr(Get(data, "timestamp"), Number(now)),
      "packetId" := Get(data, "packetId"),
      "status" := Text("pending")
    ]
  }

  /** The store after a successful `message_sent` event. */
  function RecordSent(store: Messages, data: Record, now: int): Messages
  {
    var key := ToJsString(Get(data, "channel"));
    store[key := ListAt(store, key) + [SentRecord(data, now)]]
  }

  /** Exactly one message is appended to the channel's list (created if
      absent): sent by `You`, `pending`, with the event's packet id, and
      stamped with the event's timestamp or else the current time. */
  lemma RecordSentAppendsOne(store: Messages, data: Record, now: int)
    ensures var key := ToJsString(Get(data, "channel"));
      var after := RecordSent(store, data, now);
      && after.Keys == store.Keys + {key}
      && (forall k :: k in store && k != key ==> after[k] == store[k])
      && |after[key]| == |ListAt(store, key)| + 1
      && after[key][..|ListAt(store, key)|] == ListAt(store, key)
      && var m := after[key][|ListAt(store, key)|];
         && Get(m, "sender") == Text("You")
         && Get(m, "status") == Text("pending")
         && Get(m, "packetId") == Get(data, "packetId")
         && Get(m, "text") == Get(data, "message")
         && Get(m, "timestamp") == (if Truthy(Get(data, "timestamp")) then Get(data, "timestamp") else Number(now))
  {
  }

  // ---- node cache ----

  /** `Object.assign({}, target, source)`: a shallow, key-wise overwrite. */
  function Assign(target: Record, source: Record): (r: Record)
    ensures r.Keys == target.Keys + source.Keys
    ensures forall k :: k in source ==> r[k] == source[k]
    ensures forall k :: k in target && k !in source ==> r[k] == target[k]
  {
    target + source
  }

  /** The record left by applying a sequence of updates in order. */
  function AssignAll(target: Record, updates: seq<Record>): Record
  {
    if updates == [] then target
    else Assign(AssignAll(target, updates[..|updates| - 1]), updates[|updates| - 1])
  }

  /** After a sequence of updates a key holds the value of the last update
      that carried it. */
  lemma {:induction false} AssignAllLastWriteWins(target: Record, updates: seq<Record>, key: string, j: int)
    requires 0 <= j < |updates| && key in updates[j]
    requires forall j' :: j < j' < |updates| ==> key !in updates[j']
    ensures key in AssignAll(target, updates) && AssignAll(target, updates)[key] == updates[j][key]
  {
    var init := updates[..|updates| - 1];
    if j < |updates| - 1 {
      assert forall j' :: j < j' < |init| ==> init[j'] == updates[j'];
      AssignAllLastWriteWins(target, init, key, j);
    }
  }

  /** A key that no update carried keeps its original value, or stays
      absent. */
  lemma {:induction false} AssignAllKeepsUntouched(target: Record, updates: seq<Record>, key: string)
    requires forall j :: 0 <= j < |updates| ==> key !in updates[j]
    ensures key in AssignAll(target, updates) <==> key in target
    ensures key in target ==> AssignAll(target, updates)[key] == target[key]
  {
    if updates != [] {
      var init := updates[..|updates| - 1];
      assert forall j :: 0 <= j < |init| ==> init[j] == updates[j];
      AssignAllKeepsUntouched(target, init, key);
    }
  }

  /** The cache key of a `node_updated` event: `data.num` when truthy,
      else `data.user.id` when truthy, else none (the event is rejected). */
  function NodeKey(data: Record): (r: Option<string>)
    ensures Truthy(Get(data, "num")) ==> r == Some(ToJsString(Get(data, "num")))
    ensures !Truthy(Get(data, "num")) && Truthy(Prop(Get(data, "user"), "id")) ==>
              r == Some(ToJsString(Prop(Get(data, "user"), "id")))
    ensures r.None? <==> !Truthy(Get(data, "num")) && !Truthy(Prop(Get(data, "user"), "id"))
  {
    var num := Get(data, "num");
    var user := Get(data, "user");
    var id := JsAnd(user, Prop(user, "id"));
    if !Truthy(num) && !Truthy(id) then None
    else Some(ToJsString(JsOr(num, id)))
  }

  function RecordAt(nodes: Nodes, key: string): Record
  {
    if key in nodes then nodes[key] else map[]
  }

  /** Merges `data` into the record under `key`, creating it if absent. */
  function MergeNode(nodes: Nodes, key: string, data: Record): Nodes
  {
    nodes[key := Assign(RecordAt(nodes, key), data)]
  }

  /** The cache after a `node_updated` event. */
  function NodeUpdated(nodes: Nodes, data: Record): Nodes
  {
    match NodeKey(data)
    case None => nodes
    case Some(key) => MergeNode(nodes, key, data)
  }

  /** A rejected update leaves the cache alone. An accepted one leaves every
      other node alone and gives its node every property of the update,
      while every other property the node had is kept. */
  lemma NodeUpdatedEffect(nodes: Nodes, data: Record)
    ensures NodeKey(data).None? ==> NodeUpdated(nodes, data) == nodes
    ensures NodeKey(data).Some? ==>
      var key := NodeKey(data).value;
      var after := NodeUpdated(nodes, data);
      && after.Keys == nodes.Keys + {key}
      && (forall k :: k in nodes && k != key ==> after[k] == nodes[k])
      && after[key].Keys == RecordAt(nodes, key).Keys + data.Keys
      && (forall f :: f in data ==> after[key][f] == data[f])
      && (forall f :: f in RecordAt(nodes, key) && f !in data ==> after[key][f] == RecordAt(nodes, key)[f])
  {
  }

  /** The cache after a sequence of `node_updated` events, in order. */
  function NodeUpdates(nodes: Nodes, updates: seq<Record>): Nodes
  {
    if updates == [] then nodes
    else NodeUpdated(NodeUpdates(nodes, updates[..|updates| - 1]), updates[|updates| - 1])
  }

  /** Events that all key the same node leave it holding the successive
      shallow merges of their data into its original record. */
  lemma {:induction false} NodeUpdatesAccumulate(nodes: Nodes, updates: seq<Record>, key: string)
    requires forall j :: 0 <= j < |updates| ==> NodeKey(updates[j]) == Some(key)
    ensures RecordAt(NodeUpdates(nodes, updates), key) == AssignAll(RecordAt(nodes, key), updates)
    ensures updates != [] ==> key in NodeUpdates(nodes, updates)
  {
    if updates != [] {
      var init := updates[..|updates| - 1];
      assert forall j :: 0 <= j < |init| ==> init[j] == updates[j];
      NodeUpdatesAccumulate(nodes, init, key);
    }
  }

  /** `updateNode(nodeData)` keys the record by `nodeData.num` as it is,
      so an update without a number lands under the key `undefined`. */
  function UpdateNodeByNum(nodes: Nodes, data: Record): Nodes
  {
    MergeNode(nodes, ToJsString(Get(data, "num")), data)
  }
}
