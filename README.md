# Meshtastic web client: state bookkeeping

This project models the browser side of a small Meshtastic web
interface (`static/scripts.js`). The page keeps four pieces of state, and
socket events update them in place:

- the **message store** maps a channel to the list of its messages;
- the **acknowledgement timer table** maps a packet id to the handle of a
  60-second timer;
- the **node cache** maps a node key to the node's merged record;
- the **local node info** and the **selected channel**.

Around this state sit pure helpers:

- the channel selector list;
- the node filter and the `lastHeard` ordering;
- `formatUptime`;
- the position check;
- the pruning of unset settings;
- the text filter of the message view.

The model is in five modules:

- `Js` (`js.dfy`) covers the JavaScript values the code handles. An
  object is a map from property name to value, and a number is an
  integer, with `NaN` kept apart as its own value. The module writes out
  truthiness, `||` and `&&` (which return an operand), `===`, `String(v)`
  (which is also how an object key is formed from a value), decimal
  `parseInt`, ASCII `toLowerCase` and `String.prototype.includes`.
- `Seqs` (`seqs.dfy`) holds an order-preserving filter. It is shared by
  `Array.prototype.filter` and by the `forEach` loops that skip elements.
- `Views` (`views.dfy`) holds the pure helpers. Two loops are kept as
  methods: `updateChannelList`'s `forEach` and the settings pruning. Each
  is proved equal to a function that specifies it.
- `Store` (`store.dfy`) holds pure functions giving each store after each
  kind of event. They state the upsert-by-packet-id, status-update,
  sent-message and shallow-merge semantics, with lemmas about them.
- `Page` (`client.dfy`) holds the page as a class. The class fields are
  the messages, the timeout table, the armed timers, the node cache, the
  local node info and the current channel. There is one method per
  socket handler:
  - a method that changes state ensures its new state in terms of the
    `Store` functions, and that no other field changed;
  - `updateMessageStatus` keeps its two nested loops;
  - `updateMessages` keeps its loop.

  A handler whose redraw throws stops at that point, and state changed
  before the throw stays changed. `updateMessages` throws when it draws
  one's own message while the local node info is truthy but has no
  `user`, because `getMyNodeName` then reads `longName` of nothing. This
  changes the outcome of two handlers, `message_sent` and
  `message_ack_timeout`: their remaining steps come after the redraw. In
  the other handlers nothing that changes state follows the redraw. At
  start-up, drawing the embedded nodes throws before the map exists when
  some node has a valid position, because `updateMap` then adds a marker
  to the missing map. It also throws when some node's card formats a
  non-number with `toFixed`. When it throws, the embedded messages are
  never loaded.

  A browser timer is an armed entry `handle -> packetId` in `timers`. The
  caller (the event loop) makes it fire by calling `TimerFires`.
  `clearTimeout` disarms the entry.
- `Scenarios` (`scenarios.dfy`) applies handlers in sequence to a
  freshly started page and proves the outcome. One example: after a
  server timeout, the still-armed local timer overwrites a late ack.

Behaviours of the code worth noting:

- The node merge is shallow (`Object.assign`), not deep. A second
  telemetry update replaces `deviceMetrics` wholesale (`Scenarios.TwoMetricsUpdates`).
- Nothing protects a terminal message status. A later
  `update_message_status`, ack or timeout overwrites any earlier status.
- A status update reaches every stored message with that packet id, in
  every channel, not only the most recent one.
- The bundled server (`app.py`) emits `message_sent` with only a
  `message` field and no `status`, so the client's success branch would
  not run against it. It emits incoming messages as `receive_message`
  rather than `new_message`. The model treats each client handler as
  written, whatever emits its event.

## Model

| member | source | states |
|---|---|---|
| Js.NumberOfIntToString | static/scripts.js:284 | subtraction coerces the decimal text of any integer back to that integer, and empty text to 0 |
| Js.ParseIntOfIntToString | static/scripts.js:448 | `parseInt` of the decimal text of any integer gives back that integer, so a channel index written into an option's value is read back unchanged |
| Js.IncludesIffOccurs | static/scripts.js:279 | `includes(t)` holds exactly when `t` occurs at some position of the string |
| Views.UpdateChannelList | static/scripts.js:398-410 | rebuilding the selector yields exactly the labels of the listed channels, in input order |
| Views.ChannelOptionsAreListedChannels | static/scripts.js:401-407 | a channel is listed iff its index is `=== 0` or its name is truthy; there is one option per listed channel; each option's text is `PRIMARY` for index 0, and otherwise the name; its value is `String(index)`, or, for an `undefined` or `null` index (which sets no value attribute), its text with white space stripped and collapsed |
| Views.UnindexedChannelSelectsByName | static/scripts.js:403-405 | a channel `{name: "7 Bravo"}` without an index gets the option value `7 Bravo`, so the `parseInt` at line 448 selects channel 7 when it is chosen |
| Views.SelectedOptionFindsChannel | static/scripts.js:403-405 | choosing the option of a channel with an integer index sets a current channel whose store key is that channel's key |
| Views.DefaultChannelList | static/scripts.js:85-90 | without embedded channels the selector offers exactly one option, value `0` and text `PRIMARY` |
| Views.FormatUptime | static/scripts.js:224-231 | the result is `N/A` if and only if the input is `undefined` |
| Views.UptimeSplitAddsUp | static/scripts.js:226-229 | for a non-negative count, days·86400 + hours·3600 + minutes·60 + seconds equals the count, with hours < 24 and minutes, seconds < 60 |
| Views.UptimeSplitUnique | static/scripts.js:226-229 | any split with those bounds that adds up to the count is the one `formatUptime` prints |
| Views.FilterNodesKeepsMatches | static/scripts.js:273-280 | the filtered node list holds exactly the nodes whose lower-cased name or number contains the lower-cased filter; an empty filter keeps every node in order |
| Views.NodeFoundByNumberOrName | static/scripts.js:274-279 | a node is found by typing its non-zero number, or its long name in any ASCII letter case |
| Views.CompareByLastHeardOrders | static/scripts.js:283-284 | the comparator is antisymmetric; it puts the more recently heard node first; a node with a falsy `lastHeard` sorts after any node heard at a positive time; it is transitive over numeric keys |
| Views.TextLastHeardComparesAsNumber | static/scripts.js:284 | a `lastHeard` sent as decimal text is subtracted as the number it writes, so `{lastHeard: "100"}` sorts before `{lastHeard: 50}` |
| Views.HasValidPositionMeans | static/scripts.js:1-7 | a node has a valid position iff its position is an object whose latitude and longitude are both numbers (not `NaN`) |
| Views.PruneSettings | static/scripts.js:655-657 | the key-by-key deletion leaves exactly the settings that are neither `undefined` nor `NaN`, with their values unchanged |
| Views.PrunedIdempotent | static/scripts.js:655-657 | pruning twice is pruning once |
| Store.FindIndex | static/scripts.js:521-523 | `findIndex` gives the first position whose message's packet id is `===` the given one, or −1 exactly when there is none |
| Store.ReceiveMessageUpserts | static/scripts.js:510-529 | a message without a channel changes nothing; otherwise it replaces, in place, the first stored message with the same packet id, or is appended, creating the channel's list if needed; no other channel changes |
| Store.StatusUpdateEffect | static/scripts.js:711-719 | every message with that packet id, in every channel, gets the new status and keeps its other properties; all other messages, the channels and their lengths are unchanged |
| Store.StatusUpdateLastWins | static/scripts.js:711-719 | two updates for the same packet leave the second status, whatever the first was |
| Store.StatusUpdatesCommute | static/scripts.js:711-719 | updates for two distinct packet ids can be applied in either order |
| Store.RecordSentAppendsOne | static/scripts.js:538-552 | a successful send appends exactly one message to its channel, sent by `You`, `pending`, with the event's packet id and text, stamped with the event's timestamp or else the current time |
| Store.Assign | static/scripts.js:573 | `Object.assign({}, a, b)` has the keys of both; `b` wins where both have a key, `a`'s value stays elsewhere |
| Store.AssignAllLastWriteWins | static/scripts.js:563-573 | after a sequence of node updates a property holds the value of the last update that carried it |
| Store.AssignAllKeepsUntouched | static/scripts.js:563-573 | a property no update carried keeps its value, or stays absent |
| Store.NodeKey | static/scripts.js:565-569 | the cache key is `num` when truthy, else `user.id` when truthy; data with neither has no key |
| Store.NodeUpdatedEffect | static/scripts.js:563-573 | rejected data leaves the cache unchanged; accepted data creates or updates only its own node, which gets every property of the data and keeps its others |
| Store.NodeUpdatesAccumulate | static/scripts.js:570-573 | after a sequence of events keying the same node, the node holds the successive shallow merges of their data into its original record |
| Page.Client.constructor | static/scripts.js:92-101 | the page starts with the embedded nodes when there are any; it loads the embedded messages when they are defined, except when drawing the embedded nodes throws, in which case the store stays empty; it starts with no timers, no local node info and channel 0 |
| Page.Client.OnNewMessage | static/scripts.js:510-535 | the store becomes the upsert of the payload; the message is accepted iff its channel is defined; a redraw happens iff its channel is `===` the selected one; no other state changes |
| Page.Client.OnMessageSent | static/scripts.js:538-561 | on `status === 'success'` the message is recorded as pending; a fresh timer is armed and recorded for its packet id unless the redraw throws; on any other status nothing changes |
| Page.Client.StartTimer | static/scripts.js:555-557 | `setTimeout` arms a timer under a fresh handle, and the handle is recorded under the packet's key |
| Page.Client.OnMessageAck | static/scripts.js:583-590 | a recorded timer is disarmed and its record removed, and the packet's messages become `acked` whether or not a timer was recorded |
| Page.Client.OnMessageAckTimeout | static/scripts.js:592-598 | only while a timer record exists, the packet's messages become `timeout`, and the record is removed unless the redraw throws; the armed timer is left running |
| Page.Client.TimerFires | static/scripts.js:555-557 | an armed timer marks its packet's messages `timeout`, whatever their status, and is disarmed; an unarmed handle does nothing |
| Page.Client.OnRoutingError | static/scripts.js:491-494 | the packet's messages become `failed` |
| Page.Client.OnUpdateMessageStatus | static/scripts.js:500-503 | the packet's messages take the reported status |
| Page.Client.UpdateMessageStatus | static/scripts.js:711-721 | the nested loops leave the store equal to the status-updated store; the result reports exactly whether the following redraw throws |
| Page.Client.UpdateChannelStatus | static/scripts.js:713-718 | the inner loop updates exactly one channel's list and leaves the others |
| Page.Client.UpdateNode | static/scripts.js:255-263 | the record under `String(nodeData.num)` becomes the shallow merge, without any check of the key |
| Page.Client.OnNodeUpdated | static/scripts.js:563-581 | data without a key is rejected and changes nothing; otherwise the cache becomes the merged cache, and the local node info becomes the data iff `isLocal` is truthy |
| Page.Client.OnSerialConnected | static/scripts.js:462-472 | a truthy `initialNodeInfo` becomes the local node info and is merged into the cache |
| Page.Client.OnSerialDisconnected | static/scripts.js:474-484 | nodes and messages are emptied; the timer table, the local node info and the selected channel survive |
| Page.Client.OnAllMessages | static/scripts.js:727-731 | the whole store is replaced; it is emptied when the payload has no messages |
| Page.Client.OnChannelSelected | static/scripts.js:447-451 | the selected channel becomes `parseInt` of the chosen option's value |
| Page.Client.UpdateMessages | static/scripts.js:366-396 | it fails exactly when one's own message is shown while the local node's name cannot be read. If it does not fail, the messages drawn are those of the selected channel with truthy text, in stored order, and none if the channel has no list. If it fails, they are the shown messages before the first own one |
| Scenarios.AckThenLateTimeout | static/scripts.js:583-598 | send, ack, then server timeout: the message stays `acked` and its dot is green |
| Scenarios.LateAckThenLocalTimer | static/scripts.js:555-557 | send, server timeout, ack, then the local timer fires: the message ends `timeout` with a red dot, although it was acked |
| Scenarios.AckAfterLocalTimeout | static/scripts.js:583-590 | send, the local timer fires, then an ack: the message goes back to `acked` with a green dot |
| Scenarios.TwoMetricsUpdates | static/scripts.js:573 | two telemetry updates of one node leave only the second update's `deviceMetrics` object |
| Scenarios.NamelessLocalNodeLeavesSendPending | static/scripts.js:553-557 | after a local node is announced without `user`, a successful send arms no timer; a later server timeout is then ignored and the message stays pending and yellow |
| Scenarios.PositionedNodeDropsEmbeddedMessages | static/scripts.js:92-101 | with an embedded node that has a valid position, start-up keeps the node but loads no messages |
| Scenarios.PlainNodeKeepsEmbeddedMessages | static/scripts.js:92-101 | with an embedded node whose drawing cannot throw, start-up loads the embedded messages |

## Left out

- `app.py` (the Flask/Socket.IO server, the serial link and the radio) is
  not part of this model; events reach the client handlers as parameters.
- DOM and markup work: building option elements, message and node HTML,
  the map and its markers (`initMap`, `updateMap`), button states, scroll
  handling, tooltips and the debug log. Only the data each of these
  computes is modelled.
- The text the node list and `getMyNodeName` produce. Of these, the model
  keeps only whether drawing throws: `Views.NodeListDrawThrowsBeforeMap`
  at start-up and `Views.NodeNameThrows`. A throw while drawing nodes
  after start-up is not modelled, because no handler changes state after
  drawing its nodes.
- `Page.Client.constructor`: assumes the node filter box is empty at
  start-up, so every embedded node is drawn. It treats `toFixed` as
  defined only on numbers.
- `populateSettingsForm`, in both of its definitions, and the settings form
  capture: they read and write form elements. The pruning step that follows
  the capture is modelled.
- Discord webhooks: load, save and delete, and the call to
  `sendToDiscordWebhook`, which `static/scripts.js` calls but does not
  define.
- Floating point: numbers are integers. So the `snr` and `hopsAway`
  sorts, which use `±Infinity` defaults, are left out, and so are
  `parseFloat` and `toFixed`.
- `Js.TextToNumber`: numeric coercion of text covers optionally signed
  decimal integers with surrounding white space, and empty text. Fractions,
  exponents, `0x`/`0o`/`0b` literals and `Infinity` count as `NaN`, since
  numbers are integers here.
- `Views.CompareByLastHeardOrders`: because of that, a `lastHeard` written
  as fractional or exponent text counts as `NaN` and ties.
- `Views.FormatUptime`: covers integer inputs, integer text, `undefined`,
  `null`, booleans and `NaN`; other text gives `NaN` parts, as above.
- `Js.ParseInt`: decimal only. A `0x` prefix and fractional text are not
  treated specially.
- Message stores are typed `map<string, seq<Record>>`: the embedded store,
  the one `all_messages` delivers and the live one. A channel entry that is
  not an array, or a `null` message in a list, would make `findIndex` or
  the status loop throw partway; the model does not cover such stores.
- `Js.Lower`: ASCII letters only. Unicode case mapping is not modelled.
- Object identity: `===` between two objects is false, as for the
  separately decoded payloads the handlers receive. Two handlers sharing
  one message object (aliasing) is not modelled, and neither is the
  iteration order of `Object.keys` and `Object.values`. The node list is
  taken as a sequence.
- Wall-clock time: `Date.now()` is the parameter `now`. When a browser
  timer fires is up to the caller of `Page.Client.TimerFires`.
- `Page.Client.OnSerialConnected`: a truthy `initialNodeInfo` that is not
  an object is merged as an empty record. The string indices JavaScript
  would copy from a string are not modelled.
- Connection, port selection, send-button and settings-save events only
  emit requests or update the page, so they are left out.
