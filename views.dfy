/** The pure helpers of the client page: the channel list, uptime
    formatting, node filtering and ordering, the message text filter and
    status dot, the position check, and the pruning of unset settings.
    Only the data each helper computes is modelled, not the markup it
    produces. */
module Views {
  import opened Js
  import opened Seqs

  // ---- channel list ----

  /** One `<option>` of the channel selector: its value attribute and its
      visible text. */
  datatype ChannelOption = ChannelOption(value: string, text: string)

  /** A channel is listed when its index is exactly `0` or its name is
      truthy. */
  predicate Listed(channel: Record)
  {
    StrictEquals(Get(channel, "index"), Number(0)) || Truthy(Get(channel, "name"))
  }

  /** The option built from a channel. Its text is `PRIMARY` for index 0 and
      otherwise the name. Its value attribute is `String(index)`; an
      `undefined` index sets no attribute and a `null` one removes it, and an
      option without the attribute reports its text, stripped and collapsed. */
  function Label(channel: Record): ChannelOption
  {
    var index := Get(channel, "index");
    var text := if StrictEquals(index, Number(0)) then "PRIMARY" else ToJsString(Get(channel, "name"));
    ChannelOption(if index == Undefined || index == Null then StripAndCollapse(text) else ToJsString(index),
                  text)
  }

  /** The white space jQuery strips from an option's text: space, tab,
      carriage return, line feed and form feed. */
  predicate IsHtmlSpace(c: char)
  {
    c == ' ' || c == '\t' || c == '\r' || c == '\n' || c == '\U{000C}'
  }

  function DropHtmlSpaces(s: string): (r: string)
    ensures |r| <= |s|
    ensures r != [] ==> !IsHtmlSpace(r[0])
  {
    if s != [] && IsHtmlSpace(s[0]) then DropHtmlSpaces(s[1..]) else s
  }

  /** The longest prefix of `s` without white space. */
  function WordPrefix(s: string): (w: string)
    ensures |w| <= |s| && w == s[..|w|]
    ensures forall i :: 0 <= i < |w| ==> !IsHtmlSpace(w[i])
    ensures |w| < |s| ==> IsHtmlSpace(s[|w|])
  {
    if s != [] && !IsHtmlSpace(s[0]) then [s[0]] + WordPrefix(s[1..]) else []
  }

  /** The words of `s` joined by single spaces: white space is dropped at
      both ends and each inner run of it becomes one space. */
  function StripAndCollapse(s: string): (r: string)
    ensures r != [] ==> !IsHtmlSpace(r[0]) && !IsHtmlSpace(r[|r| - 1])
    ensures forall i :: 0 <= i < |r| && IsHtmlSpace(r[i]) ==> r[i] == ' '
    decreases |s|
  {
    var t := DropHtmlSpaces(s);
    if t == [] then []
    else
      var w := WordPrefix(t);
      var rest := StripAndCollapse(t[|w|..]);
      if rest == [] then w
      else
        var r := w + " " + rest;
        assert forall i :: |w| < i < |r| ==> r[i] == rest[i - |w| - 1];
        r
  }

  /** Text that has no white space is its own stripped and collapsed form. */
  lemma {:induction false} StripAndCollapseKeepsWord(s: string)
    requires forall i :: 0 <= i < |s| ==> !IsHtmlSpace(s[i])
    ensures StripAndCollapse(s) == s
  {
    if s != [] {
      WordOfSpacelessText(s);
      assert s[|s|..] == [];
      assert DropHtmlSpaces([]) == [];
    }
  }

  lemma {:induction false} WordOfSpacelessText(s: string)
    requires forall i :: 0 <= i < |s| ==> !IsHtmlSpace(s[i])
    ensures WordPrefix(s) == s
  {
    if s != [] {
      WordOfSpacelessText(s[1..]);
    }
  }

  /** The options the selector holds after the channel list is rebuilt. */
  function ChannelOptions(channels: seq<Record>): seq<ChannelOption>
  {
    var listed := Filter(Listed, channels);
    seq(|listed|, i requires 0 <= i < |listed| => Label(listed[i]))
  }

  lemma ChannelOptionsSnoc(channels: seq<Record>, c: Record)
    ensures ChannelOptions(channels + [c])
         == ChannelOptions(channels) + (if Listed(c) then [Label(c)] else [])
  {
    FilterSnoc(Listed, channels, c);
  }

  /** Rebuilds the channel selector, one channel at a time in input order. */
  method UpdateChannelList(channels: seq<Record>) returns (options: seq<ChannelOption>)
    ensures options == ChannelOptions(channels)
  {
    options := [];
    for i := 0 to |channels|
      invariant options == ChannelOptions(channels[..i])
    {
      ChannelOptionsSnoc(channels[..i], channels[i]);
      assert channels[..i + 1] == channels[..i] + [channels[i]];
      if Listed(channels[i]) {
        options := options + [Label(channels[i])];
      }
    }
    assert channels[..|channels|] == channels;
  }

  /** The options are the labels of the listed channels, in input order;
      a channel with index 0 is labelled PRIMARY, any other by its name. */
  lemma ChannelOptionsAreListedChannels(channels: seq<Record>)
    ensures forall c :: c in Filter(Listed, channels)
                    <==> c in channels && (StrictEquals(Get(c, "index"), Number(0)) || Truthy(Get(c, "name")))
    ensures |ChannelOptions(channels)| == |Filter(Listed, channels)|
    ensures forall i :: 0 <= i < |ChannelOptions(channels)| ==>
              var c := Filter(Listed, channels)[i];
              && ChannelOptions(channels)[i].value
                 == (if Get(c, "index") == Undefined || Get(c, "index") == Null
                     then StripAndCollapse(ChannelOptions(channels)[i].text) else ToJsString(Get(c, "index")))
              && ChannelOptions(channels)[i].text
                 == (if StrictEquals(Get(c, "index"), Number(0)) then "PRIMARY" else ToJsString(Get(c, "name")))
  {
    FilterMembers(Listed, channels);
  }

  /** Choosing the option of a channel with an integer index reads the
      messages stored under that same index. */
  lemma SelectedOptionFindsChannel(c: Record, n: int)
    requires Get(c, "index") == Number(n)
    ensures ToJsString(ParseInt(Label(c).value)) == ToJsString(Get(c, "index"))
  {
    ParseIntOfIntToString(n);
  }

  /** Two words joined by one space are their own stripped and collapsed
      form. */
  lemma TwoWordsKept(a: string, b: string)
    requires a != [] && b != []
    requires forall i :: 0 <= i < |a| ==> !IsHtmlSpace(a[i])
    requires forall i :: 0 <= i < |b| ==> !IsHtmlSpace(b[i])
    ensures StripAndCollapse(a + " " + b) == a + " " + b
  {
    var sb := " " + b;
    var t := a + sb;
    assert a + " " + b == t;
    assert t[0] == a[0];
    assert DropHtmlSpaces(t) == t;
    WordAtSpace(a, sb);
    assert t[|a|..] == sb;
    SpaceThenWord(b);
  }

  lemma SpaceThenWord(b: string)
    requires b != []
    requires forall i :: 0 <= i < |b| ==> !IsHtmlSpace(b[i])
    ensures StripAndCollapse(" " + b) == b
  {
    assert (" " + b)[1..] == b;
    assert DropHtmlSpaces(b) == b;
    assert DropHtmlSpaces(" " + b) == b;
    StripAndCollapseKeepsWord(b);
  }

  lemma {:induction false} WordAtSpace(a: string, rest: string)
    requires forall i :: 0 <= i < |a| ==> !IsHtmlSpace(a[i])
    requires rest != [] && IsHtmlSpace(rest[0])
    ensures WordPrefix(a + rest) == a
  {
    if a != [] {
      assert (a + rest)[1..] == a[1..] + rest;
      WordAtSpace(a[1..], rest);
    }
  }

  /** A channel with a name but no index is selected by the number its
      name starts with, if any: `{name: "7 Bravo"}` selects channel 7. */
  lemma UnindexedChannelSelectsByName()
    ensures var c: Record := map["name" := Text("7 Bravo")];
      && Listed(c)
      && Label(c) == ChannelOption("7 Bravo", "7 Bravo")
      && ParseInt(Label(c).value) == Number(7)
  {
    TwoWordsKept("7", "Bravo");
    assert "7" + " " + "Bravo" == "7 Bravo";
    SevenBravoParses();
  }

  lemma SevenBravoParses()
    ensures ParseInt("7 Bravo") == Number(7)
  {
    var t := "7 Bravo";
    assert TrimStart(t) == t;
    assert DigitPrefix(t) == "7" by {
      assert DigitPrefix(t[1..]) == [];
    }
    assert DecimalValue("7") == 7 by {
      assert "7"[..0] == [];
    }
  }

  /** The channels the page starts from: the ones embedded in the page when
      there are any, else a single default channel 0. */
  function InitialChannels(embedded: Option<seq<Record>>): seq<Record>
  {
    if embedded.Some? && |embedded.value| > 0 then embedded.value
    else [map["index" := Number(0), "name" := Text("Default Channel")]]
  }

  /** Without embedded channels the selector offers PRIMARY alone. */
  lemma DefaultChannelList(embedded: Option<seq<Record>>)
    requires embedded.None? || embedded == Some([])
    ensures ChannelOptions(InitialChannels(embedded)) == [ChannelOption("0", "PRIMARY")]
  {
    var c: Record := map["index" := Number(0), "name" := Text("Default Channel")];
    assert InitialChannels(embedded) == [] + [c];
    ChannelOptionsSnoc([], c);
  }

  // ---- uptime ----

  datatype Uptime = Uptime(days: int, hours: int, minutes: int, seconds: int)

  /** JavaScript's `%`, whose result takes the sign of the dividend. */
  function JsRem(a: int, b: int): int
    requires b > 0
  {
    if a >= 0 then a % b else -((-a) % b)
  }

  /** The four numbers `formatUptime` prints, each computed as it does
      (`Math.floor` of a quotient, the remainder operator). */
  function SplitUptime(n: int): Uptime
  {
    Uptime(n / 86400, JsRem(n, 86400) / 3600, JsRem(n, 3600) / 60, JsRem(n, 60))
  }

  function Render(u: Uptime): (r: string)
    ensures |r| >= 8
  {
    IntToString(u.days) + "d " + IntToString(u.hours) + "h "
      + IntToString(u.minutes) + "m " + IntToString(u.seconds) + "s"
  }

  /** `formatUptime(seconds)`: `N/A` exactly when the value is undefined. */
  function FormatUptime(seconds: Value): (r: string)
    ensures r == "N/A" <==> seconds == Undefined
  {
    if seconds == Undefined then "N/A"
    else match ToNumber(seconds)
      case None => "NaNd NaNh NaNm NaNs"
      case Some(n) => Render(SplitUptime(n))
  }

  lemma DivModUnique(n: int, b: int, q: int, r: int)
    requires b > 0 && 0 <= r < b && n == q * b + r
    ensures n / b == q && n % b == r
  {
    var q', r' := n / b, n % b;
    var k := q - q';
    assert k * b == r' - r by {
      assert q * b - q' * b == (q - q') * b;
    }
    MulOutsideBand(k, b);
  }

  lemma MulOutsideBand(k: int, b: int)
    requires b > 0
    ensures k >= 1 ==> k * b >= b
    ensures k <= -1 ==> k * b <= -b
  {
    assert k * b == (k - 1) * b + b;
    assert k * b == (k + 1) * b - b;
  }

  /** For a non-negative count of seconds the four parts add back up to it,
      with hours below 24 and minutes and seconds below 60. */
  lemma UptimeSplitAddsUp(n: int)
    requires n >= 0
    ensures var u := SplitUptime(n);
      && u.days * 86400 + u.hours * 3600 + u.minutes * 60 + u.seconds == n
      && u.days >= 0 && 0 <= u.hours < 24 && 0 <= u.minutes < 60 && 0 <= u.seconds < 60
  {
    var d, r1 := n / 86400, n % 86400;
    var h, r2 := r1 / 3600, r1 % 3600;
    var m, s := r2 / 60, r2 % 60;
    assert n == d * 86400 + h * 3600 + r2;
    DivModUnique(n, 3600, d * 24 + h, r2);
    assert r2 == m * 60 + s;
    DivModUnique(n, 60, d * 1440 + h * 60 + m, s);
  }

  /** No other split with those bounds adds up to the same count. */
  lemma UptimeSplitUnique(n: int, u: Uptime)
    requires n >= 0
    requires u.days * 86400 + u.hours * 3600 + u.minutes * 60 + u.seconds == n
    requires 0 <= u.hours < 24 && 0 <= u.minutes < 60 && 0 <= u.seconds < 60
    ensures u == SplitUptime(n)
  {
    var r1 := u.hours * 3600 + u.minutes * 60 + u.seconds;
    DivModUnique(n, 86400, u.days, r1);
    DivModUnique(n, 3600, u.days * 24 + u.hours, u.minutes * 60 + u.seconds);
    DivModUnique(n, 60, u.days * 1440 + u.hours * 60 + u.minutes, u.seconds);
    DivModUnique(r1, 3600, u.hours, u.minutes * 60 + u.seconds);
    DivModUnique(u.minutes * 60 + u.seconds, 60, u.minutes, u.seconds);
  }

  // ---- node list: filter and order ----

  /** The name shown for a node: its long name, then its short name in
      parentheses when it has one. */
  function NodeName(node: Record): string
  {
    var user := Get(node, "user");
    var longName := JsOr(JsAnd(user, Prop(user, "longName")), Text(""));
    var shortName := JsAnd(user, Prop(user, "shortName"));
    ToJsString(longName) + (if Truthy(shortName) then " (" + ToJsString(shortName) + ")" else "")
  }

  /** The node number as lower-case text, or empty when it is falsy. */
  function NodeIdText(node: Record): string
  {
    var num := Get(node, "num");
    if Truthy(num) then Lower(ToJsString(num)) else ""
  }

  /** The filter box keeps a node when the lower-cased text typed occurs in
      its lower-cased name or in its number. */
  predicate MatchesFilter(node: Record, typed: string)
  {
    var f := Lower(typed);
    Includes(Lower(NodeName(node)), f) || Includes(NodeIdText(node), f)
  }

  function FilterNodes(nodes: seq<Record>, typed: string): seq<Record>
  {
    Filter((node: Record) => MatchesFilter(node, typed), nodes)
  }

  /** The filtered list holds exactly the matching nodes; an empty filter
      keeps every node, in order. */
  lemma FilterNodesKeepsMatches(nodes: seq<Record>, typed: string)
    ensures forall n :: n in FilterNodes(nodes, typed) <==> n in nodes && MatchesFilter(n, typed)
    ensures typed == "" ==> FilterNodes(nodes, typed) == nodes
  {
    FilterMembers((node: Record) => MatchesFilter(node, typed), nodes);
    if typed == "" {
      forall i | 0 <= i < |nodes| ensures MatchesFilter(nodes[i], typed) {
        IncludesEmptyAndSelf(Lower(NodeName(nodes[i])));
      }
      FilterKeepsAll((node: Record) => MatchesFilter(node, typed), nodes);
    }
  }

  lemma LowerAppend(a: string, b: string)
    ensures Lower(a + b) == Lower(a) + Lower(b)
  {
  }

  lemma IncludesPrefix(a: string, b: string)
    ensures Includes(a + b, a)
  {
    assert (a + b)[0..|a|] == a;
    assert OccursAt(a + b, a, 0);
    IncludesIffOccurs(a + b, a);
  }

  /** A node is found by its non-zero number, and by its long name typed in
      any mix of upper- and lower-case letters. */
  lemma NodeFoundByNumberOrName(node: Record, typed: string)
    ensures (exists n :: n != 0 && Get(node, "num") == Number(n) && typed == IntToString(n))
            ==> MatchesFilter(node, typed)
    ensures (exists s :: s != "" && Prop(Get(node, "user"), "longName") == Text(s) && Lower(typed) == Lower(s))
            ==> MatchesFilter(node, typed)
  {
    if n :| n != 0 && Get(node, "num") == Number(n) && typed == IntToString(n) {
      LowerIntToString(n);
      IncludesEmptyAndSelf(IntToString(n));
    }
    if s :| s != "" && Prop(Get(node, "user"), "longName") == Text(s) && Lower(typed) == Lower(s) {
      var user := Get(node, "user");
      var shortName := JsAnd(user, Prop(user, "shortName"));
      var rest := if Truthy(shortName) then " (" + ToJsString(shortName) + ")" else "";
      assert NodeName(node) == s + rest;
      LowerAppend(s, rest);
      IncludesPrefix(Lower(s), Lower(rest));
    }
  }

  /** A `lastHeard` sent as decimal text subtracts as the number it
      writes: against a numeric `lastHeard` the comparator gives their
      difference, so `{lastHeard: "100"}` sorts before `{lastHeard: 50}`. */
  lemma TextLastHeardComparesAsNumber(a: Record, b: Record, x: int, y: int)
    requires Get(a, "lastHeard") == Text(IntToString(x))
    requires Get(b, "lastHeard") == Number(y)
    ensures CompareByLastHeard(a, b) == y - x
    ensures CompareByLastHeard(b, a) == x - y
  {
    NumberOfIntToString(x);
  }

  /** `lastHeard || 0` as a number; `None` stands for `NaN`. */
  function LastHeardKey(node: Record): Option<int>
  {
    var v := Get(node, "lastHeard");
    if Truthy(v) then ToNumber(v) else Some(0)
  }

  /** The comparator of the `lastHeard` ordering; a `NaN` difference counts
      as `0`, as the sort algorithm treats it. */
  function CompareByLastHeard(a: Record, b: Record): int
  {
    match (LastHeardKey(b), LastHeardKey(a))
    case (Some(x), Some(y)) => x - y
    case _ => 0
  }

  /** The comparator puts the most recently heard node first, a node with
      a falsy `lastHeard` sorts after any node heard at a positive time, it is antisymmetric, and it is
      transitive over nodes with numeric keys. */
  lemma CompareByLastHeardOrders(a: Record, b: Record, c: Record)
    ensures CompareByLastHeard(a, b) == -CompareByLastHeard(b, a)
    ensures LastHeardKey(a).Some? && LastHeardKey(b).Some? ==>
              (CompareByLastHeard(a, b) < 0 <==> LastHeardKey(a).value > LastHeardKey(b).value)
    ensures !Truthy(Get(a, "lastHeard")) && Get(b, "lastHeard").Number? && Get(b, "lastHeard").n > 0 ==>
              CompareByLastHeard(b, a) < 0
    ensures LastHeardKey(a).Some? && LastHeardKey(b).Some? && LastHeardKey(c).Some? ==>
              CompareByLastHeard(a, b) <= 0 && CompareByLastHeard(b, c) <= 0 ==> CompareByLastHeard(a, c) <= 0
  {
  }

  // ---- drawing the node list at page start ----

  predicate IsNumber(v: Value)
  {
    v.Number? || v.NaN?
  }

  /** `v !== undefined ? v.toFixed(..) : 'N/A'` throws when `v` is defined
      but not a number. */
  predicate ToFixedThrows(v: Value)
  {
    v != Undefined && !IsNumber(v)
  }

  /** Listing the entries of a metrics object throws when its `voltage` is
      not a number (it is formatted with `toFixed`). */
  predicate MetricsThrow(metrics: Value)
  {
    metrics.Object? && "voltage" in metrics.fields && !IsNumber(metrics.fields["voltage"])
  }

  /** Drawing one node's card throws: on a non-numeric `snr`, a non-numeric
      defined latitude or longitude of a truthy position, or a non-numeric
      voltage in its device metrics or its telemetry's device metrics. */
  predicate NodeCardThrows(node: Record)
  {
    var position := Get(node, "position");
    || ToFixedThrows(Get(node, "snr"))
    || (Truthy(position) && (ToFixedThrows(Prop(position, "latitude")) || ToFixedThrows(Prop(position, "longitude"))))
    || MetricsThrow(Get(node, "deviceMetrics"))
    || MetricsThrow(Prop(Get(node, "telemetry"), "deviceMetrics"))
  }

  /** `updateNodeInfo` run before the map exists (with an empty filter box)
      throws when some node's card throws, or when some node has a valid
      position, because `updateMap` then adds a marker to the absent map. */
  predicate NodeListDrawThrowsBeforeMap(nodes: map<string, Record>)
  {
    exists k :: k in nodes && (NodeCardThrows(nodes[k]) || HasValidPosition(nodes[k]))
  }

  // ---- messages ----

  /** Only messages with a truthy text are shown. */
  predicate HasText(msg: Record)
  {
    Truthy(Get(msg, "text"))
  }

  /** The messages shown for the selected channel, in stored order. */
  function VisibleMessages(store: map<string, seq<Record>>, channel: Value): seq<Record>
  {
    var key := ToJsString(channel);
    if key in store then Filter(HasText, store[key]) else []
  }

  datatype Dot = Yellow | Green | Red

  /** The status dot before a message: own messages are yellow while
      pending, green once acked and red otherwise; every other message is
      green. */
  function StatusDot(msg: Record): Dot
  {
    var status := Get(msg, "status");
    if StrictEquals(Get(msg, "sender"), Text("You")) then
      if StrictEquals(status, Text("pending")) then Yellow
      else if StrictEquals(status, Text("acked")) then Green
      else Red
    else Green
  }

  predicate FromYou(msg: Record)
  {
    StrictEquals(Get(msg, "sender"), Text("You"))
  }

  /** `getMyNodeName()` throws when the local node's info is truthy but
      has no `user` (reading `longName` of `undefined` or `null`). */
  predicate NodeNameThrows(myNodeInfo: Value)
  {
    var user := Prop(myNodeInfo, "user");
    Truthy(myNodeInfo) && (user == Undefined || user == Null)
  }

  /** `updateMessages()` throws when it reaches a shown message of one's
      own while the local node's name cannot be read. */
  predicate RedrawThrows(store: map<string, seq<Record>>, channel: Value, myNodeInfo: Value)
  {
    NodeNameThrows(myNodeInfo) && exists m :: m in VisibleMessages(store, channel) && FromYou(m)
  }

  // ---- positions ----

  /** A node may be placed on the map when its position is an object whose
      latitude and longitude are both numbers other than `NaN`. */
  predicate HasValidPosition(node: Record)
  {
    var position := Get(node, "position");
    var lat := Prop(position, "latitude");
    var lon := Prop(position, "longitude");
    && Truthy(position)
    && (lat.Number? || lat.NaN?) && (lon.Number? || lon.NaN?)
    && !lat.NaN? && !lon.NaN?
  }

  lemma HasValidPositionMeans(node: Record)
    ensures HasValidPosition(node) <==>
      && Get(node, "position").Object?
      && Prop(Get(node, "position"), "latitude").Number?
      && Prop(Get(node, "position"), "longitude").Number?
  {
  }

  // ---- settings ----

  /** A setting read from an empty or malformed field. */
  predicate Unset(v: Value)
  {
    v.Undefined? || v.NaN?
  }

  /** The settings object once every unset entry is deleted. */
  function Pruned(settings: Record): (r: Record)
    ensures r.Keys <= settings.Keys
    ensures forall k :: k in r ==> r[k] == settings[k] && !Unset(r[k])
    ensures forall k :: k in settings && !Unset(settings[k]) ==> k in r
  {
    map k | k in settings && !Unset(settings[k]) :: settings[k]
  }

  /** Deletes, key by key, every setting that is undefined or `NaN`. */
  method PruneSettings(settings: Record) returns (pruned: Record)
    ensures pruned == Pruned(settings)
  {
    pruned := settings;
    var keys := settings.Keys;
    while keys != {}
      invariant keys <= settings.Keys
      invariant pruned.Keys <= settings.Keys
      invariant forall k :: k in pruned ==> pruned[k] == settings[k]
      invariant forall k :: k in settings ==> (k in pruned <==> k in keys || !Unset(settings[k]))
      decreases keys
    {
      var k :| k in keys;
      if Unset(pruned[k]) {
        pruned := pruned - {k};
      }
      keys := keys - {k};
    }
  }

  /** Pruning a pruned object changes nothing. */
  lemma PrunedIdempotent(settings: Record)
    ensures Pruned(Pruned(settings)) == Pruned(settings)
  {
  }
}
