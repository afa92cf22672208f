/** The notification buffer kept by the `useNotifications` hook
    (frontend/components/notification/NotificationSystem.tsx): a list of
    alerts, newest first, capped at `maxNotifications` entries, with
    add, mark-all-read, clear-all and the unread badge count.

    The React state cell becomes an explicit `Buffer` value that every
    operation takes and returns. `Date.now()` becomes the parameter `now`,
    which supplies both the timestamp and the id of a new entry. */
module Notifications {
  import opened Text
  import opened Seqs

  /** `NotificationType`. */
  datatype Kind = FireAlert | DataThreshold

  datatype Notification = Notification(
    id: string,
    kind: Kind,
    message: string,
    timestamp: int,
    read: bool)

  /** Newest entry first. */
  type Buffer = seq<Notification>

  /** The default of `maxNotifications`, also the value every caller passes. */
  const DefaultCapacity: nat := 10

  /** The entry `addNotification` builds: id `Date.now().toString()`,
      unread. */
  function NewEntry(message: string, kind: Kind, now: nat): Notification {
    Notification(NatToString(now), kind, message, now, false)
  }

  predicate Bounded(buf: Buffer, capacity: nat) {
    |buf| <= capacity
  }

  // ---------------------------------------------------------------------
  // addNotification

  /** `addNotification(message, kind)`: the new entry goes in front and the
      list is cut back to `capacity`, so only the oldest entry can be lost. */
  function Add(buf: Buffer, capacity: nat, message: string, kind: Kind, now: nat): (r: Buffer)
    ensures |r| == Min(|buf| + 1, capacity)
    ensures Bounded(r, capacity)
    ensures capacity > 0 ==>
      && r[0].kind == kind
      && r[0].message == message
      && r[0].timestamp == now
      && !r[0].read
    ensures capacity > 0 ==> r[1..] == buf[..|r| - 1]
  {
    Slice([NewEntry(message, kind, now)] + buf, 0, capacity)
  }

  // ---------------------------------------------------------------------
  // unreadCount

  predicate IsUnread(n: Notification) { !n.read }

  /** `notifications.filter(n => !n.read).length`. */
  function UnreadCount(buf: Buffer): nat {
    |Filter(buf, IsUnread)|
  }

  /** The badge counts exactly the unread entries: it is never larger than
      the list, and it is zero exactly when every entry has been read. */
  lemma {:induction false} UnreadCountBounds(buf: Buffer)
    ensures UnreadCount(buf) <= |buf|
    ensures UnreadCount(buf) == 0 <==> forall i :: 0 <= i < |buf| ==> buf[i].read
    decreases |buf|
  {
    if |buf| > 0 {
      UnreadCountBounds(buf[1..]);
      assert forall i :: 1 <= i < |buf| ==> buf[i] == buf[1..][i - 1];
    }
  }

  lemma UnreadCountConcat(a: Buffer, b: Buffer)
    ensures UnreadCount(a + b) == UnreadCount(a) + UnreadCount(b)
  {
    FilterConcat(a, b, IsUnread);
  }

  /** Adding raises the badge by one, minus one if an unread entry was
      evicted to make room. */
  lemma AddUnreadCount(buf: Buffer, capacity: nat, message: string, kind: Kind, now: nat)
    requires capacity > 0 && Bounded(buf, capacity)
    ensures |buf| < capacity ==>
      UnreadCount(Add(buf, capacity, message, kind, now)) == UnreadCount(buf) + 1
    ensures |buf| == capacity ==>
      UnreadCount(Add(buf, capacity, message, kind, now))
        == UnreadCount(buf) + 1 - (if buf[|buf| - 1].read then 0 else 1)
  {
    var r := Add(buf, capacity, message, kind, now);
    assert r == [r[0]] + r[1..];
    UnreadCountConcat([r[0]], r[1..]);
    if |buf| < capacity {
      assert r[1..] == buf;
    } else {
      var n := |buf|;
      assert buf == buf[..n - 1] + [buf[n - 1]];
      UnreadCountConcat(buf[..n - 1], [buf[n - 1]]);
    }
  }

  // ---------------------------------------------------------------------
  // markAllAsRead, clearAllNotifications, onClearAll

  /** Everything about an entry except its `read` flag. */
  predicate SameContent(a: Notification, b: Notification) {
    a.id == b.id && a.kind == b.kind && a.message == b.message && a.timestamp == b.timestamp
  }

  /** `markAllAsRead`: same entries in the same order, all read. */
  function MarkAllAsRead(buf: Buffer): (r: Buffer)
    ensures |r| == |buf|
    ensures forall i :: 0 <= i < |r| ==> SameContent(r[i], buf[i]) && r[i].read
    ensures UnreadCount(r) == 0
  {
    var r := seq(|buf|, i requires 0 <= i < |buf| => buf[i].(read := true));
    UnreadCountBounds(r);
    r
  }

  lemma MarkAllAsReadIdempotent(buf: Buffer)
    ensures MarkAllAsRead(MarkAllAsRead(buf)) == MarkAllAsRead(buf)
  {
  }

  /** `clearAllNotifications`. */
  function ClearAll(buf: Buffer): (r: Buffer)
    ensures |r| == 0
  {
    []
  }

  /** The bell's "clear all" button: mark everything read, then clear. */
  function OnClearAll(buf: Buffer): (r: Buffer)
    ensures |r| == 0 && UnreadCount(r) == 0
  {
    ClearAll(MarkAllAsRead(buf))
  }

  // ---------------------------------------------------------------------
  // addFireAlert, addDataThresholdAlert

  const FirePrefix: string := "Phát hiện cháy tại "
  const ThresholdInfix: string := " vượt ngưỡng: "
  const ThresholdLimitInfix: string := " (ngưỡng: "

  /** The text of `addFireAlert(location)`. */
  function FireMessage(location: string): (m: string)
    ensures StartsWith(m, FirePrefix) && Contains(m, location)
  {
    ContainsConcat(FirePrefix, location, "!");
    FirePrefix + location + "!"
  }

  /** The part of a threshold message after the data type:
      `${value} (ngưỡng: ${threshold})`. */
  function NumbersText(value: int, threshold: int): string {
    IntToString(value) + (ThresholdLimitInfix + IntToString(threshold) + ")")
  }

  /** The text of `addDataThresholdAlert(dataType, value, threshold)`;
      the two numbers are rendered in decimal. */
  function ThresholdMessage(dataType: string, value: int, threshold: int): (m: string)
    ensures StartsWith(m, dataType)
    ensures Contains(m, IntToString(value)) && Contains(m, IntToString(threshold))
  {
    var v := IntToString(value);
    var t := IntToString(threshold);
    var m := (dataType + ThresholdInfix) + NumbersText(value, threshold);
    ContainsConcat(dataType + ThresholdInfix, v, ThresholdLimitInfix + t + ")");
    ContainsConcat(dataType + ThresholdInfix + v + ThresholdLimitInfix, t, ")");
    assert m == (dataType + ThresholdInfix) + v + (ThresholdLimitInfix + t + ")");
    assert m == (dataType + ThresholdInfix + v + ThresholdLimitInfix) + t + ")";
    m
  }

  /** The rendered text of a number never contains a space. */
  lemma IntToStringHasNoSpace(i: int)
    ensures forall k :: 0 <= k < |IntToString(i)| ==> IntToString(i)[k] != ' '
  {
    if i < 0 {
      assert forall k :: 1 <= k < |IntToString(i)| ==> IntToString(i)[k] == NatToString(-i)[k - 1];
    }
  }

  /** Position of the first space in `s` (or `|s|` when there is none). */
  function FirstSpace(s: string): nat
    decreases |s|
  {
    if |s| == 0 || s[0] == ' ' then 0 else 1 + FirstSpace(s[1..])
  }

  lemma {:induction false} FirstSpaceAfterWord(x: string, y: string)
    requires forall k :: 0 <= k < |x| ==> x[k] != ' '
    requires |y| > 0 && y[0] == ' '
    ensures FirstSpace(x + y) == |x|
    decreases |x|
  {
    if |x| > 0 {
      assert (x + y)[1..] == x[1..] + y;
      FirstSpaceAfterWord(x[1..], y);
    }
  }

  /** Two space-free words followed by text starting with a space are
      split the same way. */
  lemma SplitAtSpace(x: string, y: string, x': string, y': string)
    requires forall k :: 0 <= k < |x| ==> x[k] != ' '
    requires forall k :: 0 <= k < |x'| ==> x'[k] != ' '
    requires |y| > 0 && y[0] == ' ' && |y'| > 0 && y'[0] == ' '
    requires x + y == x' + y'
    ensures x == x' && y == y'
  {
    FirstSpaceAfterWord(x, y);
    FirstSpaceAfterWord(x', y');
    assert x == (x + y)[..|x|] && x' == (x' + y')[..|x'|];
    assert y == (x + y)[|x|..] && y' == (x' + y')[|x'|..];
  }

  lemma NumbersTextDeterminesNumbers(v1: int, t1: int, v2: int, t2: int)
    requires NumbersText(v1, t1) == NumbersText(v2, t2)
    ensures v1 == v2 && t1 == t2
  {
    var q1 := ThresholdLimitInfix + IntToString(t1) + ")";
    var q2 := ThresholdLimitInfix + IntToString(t2) + ")";
    IntToStringHasNoSpace(v1);
    IntToStringHasNoSpace(v2);
    SplitAtSpace(IntToString(v1), q1, IntToString(v2), q2);
    IntToStringInjective(v1, v2);
    assert q1[|ThresholdLimitInfix|..|q1| - 1] == IntToString(t1);
    assert q2[|ThresholdLimitInfix|..|q2| - 1] == IntToString(t2);
    IntToStringInjective(t1, t2);
  }

  /** The threshold message loses neither number: for a given data type,
      equal messages mean equal value and threshold. */
  lemma ThresholdMessageDeterminesNumbers(dataType: string, v1: int, t1: int, v2: int, t2: int)
    requires ThresholdMessage(dataType, v1, t1) == ThresholdMessage(dataType, v2, t2)
    ensures v1 == v2 && t1 == t2
  {
    var p := dataType + ThresholdInfix;
    assert NumbersText(v1, t1) == ThresholdMessage(dataType, v1, t1)[|p|..];
    assert NumbersText(v2, t2) == ThresholdMessage(dataType, v2, t2)[|p|..];
    NumbersTextDeterminesNumbers(v1, t1, v2, t2);
  }

  /** `addFireAlert(location)`: one new unread fire alert naming the
      location, in front of the previous entries. */
  function AddFireAlert(buf: Buffer, capacity: nat, location: string, now: nat): (r: Buffer)
    ensures |r| == Min(|buf| + 1, capacity)
    ensures capacity > 0 ==>
      r[0].kind == FireAlert && !r[0].read && Contains(r[0].message, location)
    ensures capacity > 0 ==> r[1..] == buf[..|r| - 1]
  {
    Add(buf, capacity, FireMessage(location), FireAlert, now)
  }

  /** `addDataThresholdAlert(dataType, value, threshold)`: one new unread
      threshold alert whose text carries the data type and both numbers. */
  function AddDataThresholdAlert(buf: Buffer, capacity: nat, dataType: string, value: int, threshold: int, now: nat): (r: Buffer)
    ensures |r| == Min(|buf| + 1, capacity)
    ensures capacity > 0 ==>
      && r[0].kind == DataThreshold && !r[0].read
      && StartsWith(r[0].message, dataType)
      && Contains(r[0].message, IntToString(value))
      && Contains(r[0].message, IntToString(threshold))
    ensures capacity > 0 ==> r[1..] == buf[..|r| - 1]
  {
    Add(buf, capacity, ThresholdMessage(dataType, value, threshold), DataThreshold, now)
  }

  // ---------------------------------------------------------------------
  // Counting entries of one kind

  function KindIs(k: Kind): Notification -> bool {
    (n: Notification) => n.kind == k
  }

  function CountKind(buf: Buffer, k: Kind): nat {
    |Filter(buf, KindIs(k))|
  }

  /** Below the cap, a fire alert adds exactly one fire-alert entry and no
      threshold entry, and a threshold alert the other way round. */
  lemma AlertsAddOneOfTheirKind(buf: Buffer, capacity: nat, location: string, dataType: string, value: int, threshold: int, now: nat)
    requires |buf| < capacity
    ensures CountKind(AddFireAlert(buf, capacity, location, now), FireAlert) == CountKind(buf, FireAlert) + 1
    ensures CountKind(AddFireAlert(buf, capacity, location, now), DataThreshold) == CountKind(buf, DataThreshold)
    ensures CountKind(AddDataThresholdAlert(buf, capacity, dataType, value, threshold, now), DataThreshold)
      == CountKind(buf, DataThreshold) + 1
    ensures CountKind(AddDataThresholdAlert(buf, capacity, dataType, value, threshold, now), FireAlert)
      == CountKind(buf, FireAlert)
  {
    var f := AddFireAlert(buf, capacity, location, now);
    var d := AddDataThresholdAlert(buf, capacity, dataType, value, threshold, now);
    assert f == [f[0]] + buf;
    assert d == [d[0]] + buf;
    FilterConcat([f[0]], buf, KindIs(FireAlert));
    FilterConcat([f[0]], buf, KindIs(DataThreshold));
    FilterConcat([d[0]], buf, KindIs(FireAlert));
    FilterConcat([d[0]], buf, KindIs(DataThreshold));
  }

  // ---------------------------------------------------------------------
  // Several adds in a row

  /** An add request: the message and kind passed to `addNotification`. */
  datatype Pending = Pending(message: string, kind: Kind)

  /** Calls `addNotification` once per request, in order, all at time `now`. */
  function AddAll(buf: Buffer, capacity: nat, ps: seq<Pending>, now: nat): Buffer
    decreases |ps|
  {
    if |ps| == 0 then buf
    else AddAll(Add(buf, capacity, ps[0].message, ps[0].kind, now), capacity, ps[1..], now)
  }

  /** The entries the requests produce, in request order. */
  function Entries(ps: seq<Pending>, now: nat): (es: seq<Notification>)
    ensures |es| == |ps|
  {
    seq(|ps|, i requires 0 <= i < |ps| => NewEntry(ps[i].message, ps[i].kind, now))
  }

  function Reverse<T>(s: seq<T>): (r: seq<T>)
    ensures |r| == |s|
    ensures forall i :: 0 <= i < |s| ==> r[i] == s[|s| - 1 - i]
    decreases |s|
  {
    if |s| == 0 then [] else Reverse(s[1..]) + [s[0]]
  }

  /** Cutting to the cap, prepending and cutting again is the same as
      prepending and cutting once. */
  lemma SliceAfterPrepend(e: seq<Notification>, buf: Buffer, capacity: nat)
    ensures Slice(e + Slice(buf, 0, capacity), 0, capacity) == Slice(e + buf, 0, capacity)
  {
    var inner := Slice(buf, 0, capacity);
    assert inner == buf[..Min(capacity, |buf|)];
    var lhs := Slice(e + inner, 0, capacity);
    var rhs := Slice(e + buf, 0, capacity);
    assert lhs == (e + inner)[..Min(capacity, |e + inner|)];
    assert rhs == (e + buf)[..Min(capacity, |e + buf|)];
    assert |lhs| == |rhs|;
    forall i | 0 <= i < |lhs|
      ensures lhs[i] == rhs[i]
    {
      if i >= |e| {
        assert lhs[i] == inner[i - |e|];
      }
    }
  }

  /** Adding k entries one by one leaves them in front in reverse order:
      the last request ends up at the head, followed by the previous
      contents, all cut to the cap. */
  lemma {:induction false} AddAllPrepends(buf: Buffer, capacity: nat, ps: seq<Pending>, now: nat)
    requires Bounded(buf, capacity)
    ensures AddAll(buf, capacity, ps, now) == Slice(Reverse(Entries(ps, now)) + buf, 0, capacity)
    decreases |ps|
  {
    if |ps| == 0 {
      assert Reverse(Entries(ps, now)) + buf == buf;
    } else {
      var e0 := NewEntry(ps[0].message, ps[0].kind, now);
      var b1 := Add(buf, capacity, ps[0].message, ps[0].kind, now);
      AddAllPrepends(b1, capacity, ps[1..], now);
      var rest := Reverse(Entries(ps[1..], now));
      assert Entries(ps, now) == [e0] + Entries(ps[1..], now);
      assert Entries(ps, now)[1..] == Entries(ps[1..], now);
      assert Reverse(Entries(ps, now)) == rest + [e0];
      SliceAfterPrepend(rest, [e0] + buf, capacity);
      assert rest + ([e0] + buf) == (rest + [e0]) + buf;
    }
  }

  /** After adding k <= capacity requests, the first k entries are the new
      ones, the last request first. */
  lemma AddAllHead(buf: Buffer, capacity: nat, ps: seq<Pending>, now: nat)
    requires Bounded(buf, capacity) && |ps| <= capacity
    ensures var r := AddAll(buf, capacity, ps, now);
      |r| >= |ps|
      && forall i :: 0 <= i < |ps| ==>
        r[i] == NewEntry(ps[|ps| - 1 - i].message, ps[|ps| - 1 - i].kind, now)
  {
    AddAllPrepends(buf, capacity, ps, now);
    var r := AddAll(buf, capacity, ps, now);
    var rev := Reverse(Entries(ps, now));
    assert r == (rev + buf)[..Min(capacity, |rev + buf|)];
    forall i | 0 <= i < |ps|
      ensures r[i] == NewEntry(ps[|ps| - 1 - i].message, ps[|ps| - 1 - i].kind, now)
    {
      assert r[i] == rev[i];
    }
  }

  /** Repeating the same requests puts the same texts in front again. */
  lemma RepeatedAddAll(buf: Buffer, capacity: nat, ps: seq<Pending>, t1: nat, t2: nat)
    requires Bounded(buf, capacity) && |ps| <= capacity
    ensures var b1 := AddAll(buf, capacity, ps, t1);
      var b2 := AddAll(b1, capacity, ps, t2);
      |b1| >= |ps| && |b2| >= |ps|
      && forall i :: 0 <= i < |ps| ==>
        b2[i].message == b1[i].message && b2[i].kind == b1[i].kind
        && b2[i].kind == ps[|ps| - 1 - i].kind
  {
    var b1 := AddAll(buf, capacity, ps, t1);
    AddAllHead(buf, capacity, ps, t1);
    AddAllBounded(buf, capacity, ps, t1);
    AddAllHead(b1, capacity, ps, t2);
  }

  lemma {:induction false} AddAllBounded(buf: Buffer, capacity: nat, ps: seq<Pending>, now: nat)
    requires Bounded(buf, capacity)
    ensures Bounded(AddAll(buf, capacity, ps, now), capacity)
    decreases |ps|
  {
    if |ps| > 0 {
      AddAllBounded(Add(buf, capacity, ps[0].message, ps[0].kind, now), capacity, ps[1..], now);
    }
  }
}
