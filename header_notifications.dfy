/**
 * components/HeaderNotifications.tsx: the bell in the admin header. The
 * registrations loaded when it mounts are shown as read; each insert event
 * puts an unread notification in front, keeps ten, and adds one to the
 * unread counter; opening the dropdown clears the counter and marks all read.
 */
module HeaderNotifications {
  import Text
  import TimeAgo
  import NewestFirst
  import opened Wrappers

  /** A row of the initial query or the payload of an insert event. */
  datatype Registration = Registration(id: string, nombre: string, createdAt: string)

  datatype Notification = Notification(id: string, nombre: string, createdAt: string, read: bool)

  const NotificationCap: nat := 10
  /** `.limit(5)` of the initial query. */
  const InitialLimit: nat := 5

  function AsRead(n: Notification): Notification {
    n.(read := true)
  }

  /** `prev.map(n => ({ ...n, read: true }))`. */
  function MarkAllRead(ns: seq<Notification>): (r: seq<Notification>)
    ensures |r| == |ns|
    ensures forall i | 0 <= i < |r| :: r[i].read
    ensures forall i | 0 <= i < |r| :: r[i] == AsRead(ns[i])
  {
    seq(|ns|, i requires 0 <= i < |ns| => AsRead(ns[i]))
  }

  /** `data.map(n => ({ ...n, read: true }))` on the fetched rows. */
  function LoadedAsRead(rows: seq<Registration>): (r: seq<Notification>)
    ensures |r| == |rows|
    ensures forall i | 0 <= i < |r| ::
      r[i] == Notification(rows[i].id, rows[i].nombre, rows[i].createdAt, true)
  {
    seq(|rows|, i requires 0 <= i < |rows| =>
      Notification(rows[i].id, rows[i].nombre, rows[i].createdAt, true))
  }

  /** How many notifications in the list are unread. */
  function UnreadIn(ns: seq<Notification>): nat
    decreases |ns|
  {
    if ns == [] then 0
    else (if ns[0].read then 0 else 1) + UnreadIn(ns[1..])
  }

  lemma {:induction false} UnreadInPrefix(ns: seq<Notification>, k: nat)
    requires k <= |ns|
    ensures UnreadIn(ns[..k]) <= UnreadIn(ns)
    decreases k
  {
    if k > 0 {
      assert ns[..k][1..] == ns[1..][..k - 1];
      UnreadInPrefix(ns[1..], k - 1);
    }
  }

  lemma {:induction false} UnreadInAllRead(ns: seq<Notification>)
    requires forall i | 0 <= i < |ns| :: ns[i].read
    ensures UnreadIn(ns) == 0
    decreases |ns|
  {
    if ns != [] {
      UnreadInAllRead(ns[1..]);
    }
  }

  /** An insert adds at most one unread notification to the list. */
  lemma InsertAddsAtMostOneUnread(n: Notification, ns: seq<Notification>)
    ensures UnreadIn(NewestFirst.PrependCapped(n, ns, NotificationCap)) <= UnreadIn(ns) + 1
  {
    var r := NewestFirst.PrependCapped(n, ns, NotificationCap);
    assert r == ([n] + ns)[..|r|];
    UnreadInPrefix([n] + ns, |r|);
    assert ([n] + ns)[1..] == ns;
  }

  /** The short label: `${minutes}m`, `${hours}h` or `${days}d`. */
  function UnitLetter(u: TimeAgo.Unit): char {
    match u
    case Minutes => 'm'
    case Hours => 'h'
    case Days => 'd'
  }

  /** `formatTimeAgo`, given the elapsed milliseconds `now - created_at`. */
  function FormatTimeAgo(elapsedMs: int): (text: string)
    ensures |text| >= 2
    ensures text[|text| - 1] == 'm' <==> elapsedMs < TimeAgo.MsPerHour
    ensures text[|text| - 1] == 'h' <==> TimeAgo.MsPerHour <= elapsedMs < TimeAgo.MsPerDay
    ensures text[|text| - 1] == 'd' <==> TimeAgo.MsPerDay <= elapsedMs
  {
    var age := TimeAgo.Bucket(elapsedMs);
    Text.IntToString(age.count) + [UnitLetter(age.unit)]
  }

  /** The label is the floored count of the bucket's unit followed by that
      unit's letter: the numeral before the letter reads back as the count. */
  lemma LabelShowsCount(elapsedMs: int)
    ensures var age := TimeAgo.Bucket(elapsedMs);
      var text := FormatTimeAgo(elapsedMs);
      var n := text[..|text| - 1];
      && text[|text| - 1] == UnitLetter(age.unit)
      && n != [] && (if n[0] == '-' then Text.AllDigits(n[1..]) else Text.AllDigits(n))
      && Text.ParseInt(n) == age.count
  {
    var age := TimeAgo.Bucket(elapsedMs);
    var text := FormatTimeAgo(elapsedMs);
    assert text[..|text| - 1] == Text.IntToString(age.count);
    Text.IntToStringRoundTrip(age.count);
  }

  /** Two elapsed times get the same label exactly when they fall in the same bucket. */
  lemma LabelsDistinguishBuckets(e1: int, e2: int)
    ensures FormatTimeAgo(e1) == FormatTimeAgo(e2) <==> TimeAgo.Bucket(e1) == TimeAgo.Bucket(e2)
  {
    var a1, a2 := TimeAgo.Bucket(e1), TimeAgo.Bucket(e2);
    var s1, s2 := FormatTimeAgo(e1), FormatTimeAgo(e2);
    if s1 == s2 {
      var n1, n2 := Text.IntToString(a1.count), Text.IntToString(a2.count);
      assert s1[..|s1| - 1] == n1;
      assert s2[..|s2| - 1] == n2;
      Text.IntToStringRoundTrip(a1.count);
      Text.IntToStringRoundTrip(a2.count);
    }
  }

  /** The state of the bell: `isOpen`, `notifications`, `unreadCount`. */
  class Bell {
    var isOpen: bool
    var notifications: seq<Notification>
    var unreadCount: nat

    /** The list never exceeds ten entries, and the counter is never below
        the number of unread notifications in it. (It can be above: an
        unread notification pushed out of the ten stays counted.) */
    ghost predicate Valid()
      reads this
    {
      |notifications| <= NotificationCap && UnreadIn(notifications) <= unreadCount
    }

    /** The red dot on the bell is drawn iff the counter is positive. */
    predicate ShowsBadge()
      reads this
    {
      unreadCount > 0
    }

    constructor ()
      ensures Valid()
      ensures !isOpen && notifications == [] && unreadCount == 0
    {
      isOpen := false;
      notifications := [];
      unreadCount := 0;
    }

    /** `fetchInitial`: the newest registrations, at most five as the query
        limits them, all shown as read, replacing the list; when the query
        yields no data the list stays as it is. The counter is not touched. */
    method LoadInitial(data: Option<seq<Registration>>)
      requires Valid() && (data.Some? ==> |data.value| <= InitialLimit)
      modifies this
      ensures Valid()
      ensures notifications == if data.Some? then LoadedAsRead(data.value) else old(notifications)
      ensures isOpen == old(isOpen) && unreadCount == old(unreadCount)
    {
      if data.Some? {
        notifications := LoadedAsRead(data.value);
        UnreadInAllRead(notifications);
      }
    }

    /** The insert handler: an unread notification in front, ten kept, the
        counter up by one. */
    method OnInsert(row: Registration)
      requires Valid()
      modifies this
      ensures Valid()
      ensures notifications
        == NewestFirst.PrependCapped(Notification(row.id, row.nombre, row.createdAt, false),
                                     old(notifications), NotificationCap)
      ensures unreadCount == old(unreadCount) + 1
      ensures isOpen == old(isOpen)
    {
      var n := Notification(row.id, row.nombre, row.createdAt, false);
      InsertAddsAtMostOneUnread(n, notifications);
      notifications := ([n] + notifications)[..NewestFirst.Min(NotificationCap, |notifications| + 1)];
      unreadCount := unreadCount + 1;
    }

    /** `handleOpen`, the bell's toggle: opening clears the counter and marks
        everything read; closing changes nothing but `isOpen`. */
    method HandleOpen()
      requires Valid()
      modifies this
      ensures Valid()
      ensures isOpen == !old(isOpen)
      ensures !old(isOpen) ==> unreadCount == 0 && notifications == MarkAllRead(old(notifications))
      ensures old(isOpen) ==> unreadCount == old(unreadCount) && notifications == old(notifications)
    {
      var wasOpen := isOpen;
      isOpen := !isOpen;
      if !wasOpen {
        unreadCount := 0;
        notifications := MarkAllRead(notifications);
        UnreadInAllRead(notifications);
      }
    }

    /** A click outside the dropdown, or its close button. */
    method Close()
      requires Valid()
      modifies this
      ensures Valid()
      ensures !isOpen && notifications == old(notifications) && unreadCount == old(unreadCount)
    {
      isOpen := false;
    }
  }
}
