/** The `socket.onmessage` handler of `WebSocketProvider`
    (frontend/components/notification/WebSocketClient.tsx): it parses a
    frame, records it as `lastMessage`, and feeds `notification` and `init`
    messages into the provider's own notification buffer, whose cap is the
    default of 10.

    Frames are modelled after `JSON.parse`: a frame either failed to parse
    or is one of the message shapes the handler distinguishes. A `data`
    object that is absent makes the handler throw a TypeError, which the
    surrounding `catch` swallows; adds already made stay. */
module WebSocketDispatch {
  import opened Options
  import opened Text
  import opened Seqs
  import opened Notifications

  /** The `data` object of a server notification. */
  datatype AlertData = AlertData(location: string, sensorType: string, value: int, threshold: int)

  /** One server notification: its `type`, its `data` if present, its `message`. */
  datatype ServerNotification = ServerNotification(kind: string, data: Option<AlertData>, message: string)

  /** A parsed frame, by its `type` field. */
  datatype Message =
    | NotificationMessage(notification: Option<ServerNotification>)
    | InitMessage(notifications: Option<seq<ServerNotification>>)
    | OtherMessage(messageType: string)

  datatype Frame = Parsed(message: Message) | Unparsable

  /** The provider's state: its notification buffer and `lastMessage`. */
  datatype Client = Client(buffer: Buffer, lastMessage: Option<Message>)

  /** The `switch (notification.type)` shared by both message kinds: the
      add request it makes, or `None` when it throws reading a missing
      `data`. */
  function Render(n: ServerNotification): (r: Option<Pending>)
    ensures r.None? <==> (n.kind == "fire_alert" || n.kind == "data_threshold") && n.data.None?
    ensures r.Some? && n.kind == "fire_alert" ==>
      r.value.kind == FireAlert && r.value.message == FireMessage(n.data.value.location)
    ensures r.Some? && n.kind == "data_threshold" ==>
      var d := n.data.value;
      r.value.kind == DataThreshold && r.value.message == ThresholdMessage(d.sensorType, d.value, d.threshold)
    ensures n.kind != "fire_alert" && n.kind != "data_threshold" ==>
      r == Some(Pending(n.message, DataThreshold))
  {
    if n.kind == "fire_alert" then
      match n.data
      case None => None
      case Some(d) => Some(Pending(FireMessage(d.location), FireAlert))
    else if n.kind == "data_threshold" then
      match n.data
      case None => None
      case Some(d) => Some(Pending(ThresholdMessage(d.sensorType, d.value, d.threshold), DataThreshold))
    else
      Some(Pending(n.message, DataThreshold))
  }

  /** `message.notifications.forEach(...)`: renders and adds each entry in
      array order, stopping at the first one that throws. */
  function DeliverAll(buf: Buffer, ns: seq<ServerNotification>, now: nat): Buffer
    decreases |ns|
  {
    if |ns| == 0 then buf
    else match Render(ns[0])
      case None => buf
      case Some(p) => DeliverAll(Add(buf, DefaultCapacity, p.message, p.kind, now), ns[1..], now)
  }

  /** The whole `onmessage` handler. */
  function OnMessage(c: Client, frame: Frame, now: nat): (r: Client)
    ensures frame.Unparsable? ==> r == c
    ensures frame.Parsed? ==> r.lastMessage == Some(frame.message)
    ensures frame.Parsed? && (frame.message.OtherMessage? || frame.message == InitMessage(None)
                              || frame.message == NotificationMessage(None))
      ==> r.buffer == c.buffer
  {
    match frame
    case Unparsable => c
    case Parsed(m) =>
      var seen := c.(lastMessage := Some(m));
      match m
      case NotificationMessage(None) => seen
      case NotificationMessage(Some(n)) =>
        (match Render(n)
         case None => seen
         case Some(p) => seen.(buffer := Add(c.buffer, DefaultCapacity, p.message, p.kind, now)))
      case InitMessage(None) => seen
      case InitMessage(Some(ns)) => seen.(buffer := DeliverAll(c.buffer, ns, now))
      case OtherMessage(_) => seen
  }

  /** A `fire_alert` notification adds exactly one fire alert carrying
      `data.location`. */
  lemma FireAlertNotification(c: Client, n: ServerNotification, d: AlertData, now: nat)
    requires n.kind == "fire_alert" && n.data == Some(d)
    ensures OnMessage(c, Parsed(NotificationMessage(Some(n))), now).buffer
      == AddFireAlert(c.buffer, DefaultCapacity, d.location, now)
  {
  }

  /** A `data_threshold` notification adds one threshold alert built from
      `data.sensor_type`, `data.value` and `data.threshold`. */
  lemma ThresholdNotification(c: Client, n: ServerNotification, d: AlertData, now: nat)
    requires n.kind == "data_threshold" && n.data == Some(d)
    ensures OnMessage(c, Parsed(NotificationMessage(Some(n))), now).buffer
      == AddDataThresholdAlert(c.buffer, DefaultCapacity, d.sensorType, d.value, d.threshold, now)
  {
  }

  /** Any other notification type becomes one threshold-kind entry with
      the server's own `message`. */
  lemma FallbackNotification(c: Client, n: ServerNotification, now: nat)
    requires n.kind != "fire_alert" && n.kind != "data_threshold"
    ensures OnMessage(c, Parsed(NotificationMessage(Some(n))), now).buffer
      == Add(c.buffer, DefaultCapacity, n.message, DataThreshold, now)
  {
  }

  predicate AllRender(ns: seq<ServerNotification>) {
    forall i :: 0 <= i < |ns| ==> Render(ns[i]).Some?
  }

  function RenderAll(ns: seq<ServerNotification>): (ps: seq<Pending>)
    requires AllRender(ns)
    ensures |ps| == |ns|
  {
    seq(|ns|, i requires 0 <= i < |ns| => Render(ns[i]).value)
  }

  lemma RenderAllTail(ns: seq<ServerNotification>)
    requires AllRender(ns) && |ns| > 0
    ensures AllRender(ns[1..])
    ensures RenderAll(ns)[0] == Render(ns[0]).value
    ensures RenderAll(ns)[1..] == RenderAll(ns[1..])
  {
    assert forall i :: 0 <= i < |ns| - 1 ==> ns[1..][i] == ns[i + 1];
  }

  lemma {:induction false} DeliverAllIsAddAll(buf: Buffer, ns: seq<ServerNotification>, now: nat)
    requires AllRender(ns)
    ensures DeliverAll(buf, ns, now) == AddAll(buf, DefaultCapacity, RenderAll(ns), now)
    decreases |ns|
  {
    if |ns| > 0 {
      var p := Render(ns[0]).value;
      var b1 := Add(buf, DefaultCapacity, p.message, p.kind, now);
      var ps := RenderAll(ns);
      RenderAllTail(ns);
      assert DeliverAll(buf, ns, now) == DeliverAll(b1, ns[1..], now);
      assert AddAll(buf, DefaultCapacity, ps, now) == AddAll(b1, DefaultCapacity, ps[1..], now);
      DeliverAllIsAddAll(b1, ns[1..], now);
    }
  }

  /** An `init` snapshot of k well-formed notifications adds k entries in
      array order; since each add prepends, the buffer then starts with
      the snapshot reversed, so the server's last entry is at the head. */
  lemma InitPrependsReversed(c: Client, ns: seq<ServerNotification>, now: nat)
    requires Bounded(c.buffer, DefaultCapacity)
    requires AllRender(ns)
    ensures OnMessage(c, Parsed(InitMessage(Some(ns))), now).buffer
      == Slice(Reverse(Entries(RenderAll(ns), now)) + c.buffer, 0, DefaultCapacity)
    ensures |ns| > 0 ==>
      var head := OnMessage(c, Parsed(InitMessage(Some(ns))), now).buffer[0];
      var last := Render(ns[|ns| - 1]).value;
      head.message == last.message && head.kind == last.kind
  {
    DeliverAllIsAddAll(c.buffer, ns, now);
    AddAllPrepends(c.buffer, DefaultCapacity, RenderAll(ns), now);
  }

  /** When an `init` entry throws, the entries before it have been added
      and the ones after it are lost. */
  lemma {:induction false} InitStopsAtFirstFailure(buf: Buffer, ns: seq<ServerNotification>, k: nat, now: nat)
    requires k < |ns| && AllRender(ns[..k]) && Render(ns[k]).None?
    ensures DeliverAll(buf, ns, now) == AddAll(buf, DefaultCapacity, RenderAll(ns[..k]), now)
    decreases k
  {
    if k > 0 {
      var p := Render(ns[0]).value;
      assert ns[..k][0] == ns[0];
      assert ns[1..][..k - 1] == ns[..k][1..];
      assert RenderAll(ns[..k])[1..] == RenderAll(ns[1..][..k - 1]);
      InitStopsAtFirstFailure(Add(buf, DefaultCapacity, p.message, p.kind, now), ns[1..], k - 1, now);
    }
  }
}
