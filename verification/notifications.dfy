/** The notification centre of the dashboard script: a list of notifications, newest
    first, with an unread badge, a five-item preview in the navigation bar and a
    relative age for each item. Rendering and browser storage are not modelled. */
module Notifications {
  import opened Wrappers
  import opened Text

  /** One stored notification. `timestamp` is the creation time in milliseconds; `kind` is
      its `type` (a reserved word here). */
  datatype Notification = Notification(
    id: int, timestamp: int, read: bool,
    kind: string, title: string, message: string, details: seq<string>)

  /** The object handed to `addNotification`, with `type` written `kind` as above. It is
      spread over the defaults, so any of `id`, `timestamp` and `read` it carries wins
      over them. */
  datatype Payload = Payload(
    kind: string, title: string, message: string, details: seq<string>,
    id: Option<int>, timestamp: Option<int>, read: Option<bool>)

  /** The number of unread notifications. */
  function UnreadCount(list: seq<Notification>): (n: nat)
    ensures n <= |list|
    ensures n == 0 <==> forall k :: 0 <= k < |list| ==> list[k].read
  {
    if |list| == 0 then 0
    else (if list[0].read then 0 else 1) + UnreadCount(list[1..])
  }

  /** The count over a concatenation is the sum of the counts. */
  lemma {:induction false} UnreadCountAppend(a: seq<Notification>, b: seq<Notification>)
    ensures UnreadCount(a + b) == UnreadCount(a) + UnreadCount(b)
  {
    if |a| > 0 {
      assert (a + b)[0] == a[0];
      assert (a + b)[1..] == a[1..] + b;
      UnreadCountAppend(a[1..], b);
    } else {
      assert a + b == b;
    }
  }

  /** `addNotification(notification)` with the clock reading `now` (used both for the
      id and for the timestamp): the new item goes in front of the unchanged list. */
  function AddNotification(list: seq<Notification>, p: Payload, now: int): (r: seq<Notification>)
    ensures |r| == |list| + 1 && r[1..] == list
    ensures r[0].kind == p.kind && r[0].title == p.title && r[0].message == p.message
    ensures r[0].details == p.details
    ensures r[0].read <==> p.read == Some(true)
    ensures r[0].id == (if p.id.Some? then p.id.value else now)
    ensures r[0].timestamp == (if p.timestamp.Some? then p.timestamp.value else now)
  {
    var n := Notification(p.id.GetOr(now), p.timestamp.GetOr(now), p.read.GetOr(false),
                          p.kind, p.title, p.message, p.details);
    [n] + list
  }

  /** Adding an unread notification raises the unread count by one. */
  lemma AddRaisesUnreadCount(list: seq<Notification>, p: Payload, now: int)
    ensures UnreadCount(AddNotification(list, p, now)) ==
              UnreadCount(list) + (if p.read == Some(true) then 0 else 1)
  {
    var r := AddNotification(list, p, now);
    assert r[1..] == list;
  }

  /** `notifications.find(n => n.id === id)`: the position of the first match. */
  function FirstIndexOf(list: seq<Notification>, id: int): (r: Option<nat>)
    ensures r.Some? ==> r.value < |list| && list[r.value].id == id
    ensures r.Some? ==> forall k :: 0 <= k < r.value ==> list[k].id != id
    ensures r.None? <==> forall k :: 0 <= k < |list| ==> list[k].id != id
  {
    if |list| == 0 then None
    else if list[0].id == id then Some(0)
    else match FirstIndexOf(list[1..], id)
      case None => None
      case Some(i) => Some(i + 1)
  }

  /** `markNotificationAsRead(id)` (the later of the class's two definitions, which
      replaces the earlier one): the first notification with that id becomes read;
      nothing else changes, and nothing at all when there is no match. A later item
      with the same id is never touched, even when the first match was already read. */
  function MarkAsRead(list: seq<Notification>, id: int): (r: seq<Notification>)
    ensures FirstIndexOf(list, id).None? ==> r == list
    ensures FirstIndexOf(list, id).Some? ==>
              var i := FirstIndexOf(list, id).value;
              r == list[i := list[i].(read := true)]
  {
    if |list| == 0 then list
    else if list[0].id == id then
      (if list[0].read then list else [list[0].(read := true)] + list[1..])
    else
      [list[0]] + MarkAsRead(list[1..], id)
  }

  /** Marking the same id twice is marking it once. */
  lemma MarkAsReadIdempotent(list: seq<Notification>, id: int)
    ensures MarkAsRead(MarkAsRead(list, id), id) == MarkAsRead(list, id)
  {
    var r := MarkAsRead(list, id);
    if FirstIndexOf(list, id).Some? {
      var i := FirstIndexOf(list, id).value;
      assert r[i].id == id && r[i].read;
      assert forall k :: 0 <= k < i ==> r[k].id != id;
      FirstIndexOfIs(r, id, i);
    }
  }

  /** The first match is the only position with a matching id and none before it. */
  lemma FirstIndexOfIs(list: seq<Notification>, id: int, i: nat)
    requires i < |list| && list[i].id == id
    requires forall k :: 0 <= k < i ==> list[k].id != id
    ensures FirstIndexOf(list, id) == Some(i)
  {
  }

  /** Marking drops the unread count by one exactly when the first match was unread. */
  lemma {:induction false} MarkAsReadLowersUnreadCount(list: seq<Notification>, id: int)
    ensures var i := FirstIndexOf(list, id);
            UnreadCount(MarkAsRead(list, id)) ==
              UnreadCount(list) - (if i.Some? && !list[i.value].read then 1 else 0)
  {
    if |list| > 0 && list[0].id != id {
      var r := MarkAsRead(list, id);
      assert r[1..] == MarkAsRead(list[1..], id);
      MarkAsReadLowersUnreadCount(list[1..], id);
    } else if |list| > 0 {
      var r := MarkAsRead(list, id);
      assert r[1..] == list[1..];
    }
  }

  /** The count badge of the navigation bar. */
  datatype Badge = Badge(text: string, shown: bool)

  /** `updateNotificationBadge`: the unread count, written in decimal up to 99 and as
      "99+" above; the badge shows only while something is unread. */
  function BadgeFor(list: seq<Notification>): (b: Badge)
    ensures b.shown <==> UnreadCount(list) > 0
    ensures UnreadCount(list) > 99 ==> b.text == "99+"
    ensures UnreadCount(list) <= 99 ==> IsDigits(b.text) && DigitsValue(b.text) == UnreadCount(list)
    ensures UnreadCount(list) <= 99 && |b.text| > 1 ==> b.text[0] != '0'
    ensures 1 <= |b.text| <= 3
  {
    var n := UnreadCount(list);
    NatToStringRoundTrip(n);
    Badge(if n > 99 then "99+" else NatToString(n), n > 0)
  }

  /** What the navigation dropdown lists. */
  datatype NavView = EmptyState | Items(items: seq<Notification>)

  /** The number of notifications the navigation dropdown previews. */
  const PreviewSize := 5

  /** `renderNavNotifications`: the empty state for an empty list, else the first five
      notifications (or all, if fewer) in list order. */
  function NavPreview(list: seq<Notification>): (v: NavView)
    ensures v.EmptyState? <==> |list| == 0
    ensures v.Items? ==> 0 < |v.items| <= PreviewSize && |v.items| <= |list| && v.items == list[..|v.items|]
    ensures v.Items? ==> |v.items| == PreviewSize || |v.items| == |list|
  {
    if |list| == 0 then EmptyState
    else Items(list[..if |list| < PreviewSize then |list| else PreviewSize])
  }

  /** The newest notification always heads the preview. */
  lemma NewestIsPreviewed(list: seq<Notification>, p: Payload, now: int)
    ensures var r := AddNotification(list, p, now);
            NavPreview(r).Items? && NavPreview(r).items[0] == r[0]
  {
  }

  /** `clearAllNotifications`: the list becomes empty. */
  function ClearAll(list: seq<Notification>): (r: seq<Notification>)
    ensures |r| == 0
  {
    []
  }

  /** After clearing, the badge reads 0 and is hidden and the preview shows the empty
      state. */
  lemma ClearAllResetsViews(list: seq<Notification>)
    ensures UnreadCount(ClearAll(list)) == 0
    ensures BadgeFor(ClearAll(list)) == Badge("0", false)
    ensures NavPreview(ClearAll(list)) == EmptyState
  {
  }

  const MsPerMinute := 60000
  const MsPerHour := 60 * MsPerMinute
  const MsPerDay := 24 * MsPerHour

  /** The relative age `getTimeAgo` picks. */
  datatype Age = JustNow | MinutesAgo(minutes: nat) | HoursAgo(hours: nat) | DaysAgo(days: nat) | OnDate

  /** Whole hours of whole minutes are whole hours of the milliseconds. */
  lemma MinutesThenHours(x: int)
    ensures x / MsPerMinute / 60 == x / MsPerHour
  {
    var q := x / MsPerMinute;
    assert x == q * MsPerMinute + x % MsPerMinute;
    assert q == (q / 60) * 60 + q % 60;
  }

  /** Whole days of whole hours are whole days of the milliseconds. */
  lemma HoursThenDays(x: int)
    ensures x / MsPerHour / 24 == x / MsPerDay
  {
    var q := x / MsPerHour;
    assert x == q * MsPerHour + x % MsPerHour;
    assert q == (q / 24) * 24 + q % 24;
  }

  /** `getTimeAgo` for a difference of `diffMs` milliseconds between now and the
      timestamp. Whole minutes are taken with Math.floor (a positive divisor, so Dafny's
      division agrees), then whole hours of those minutes, then whole days of those hours.
      The result is the largest unit that fits, and the count is exact in that unit. */
  function TimeAgo(diffMs: int): (a: Age)
    ensures a.JustNow? <==> diffMs < MsPerMinute
    ensures a.MinutesAgo? ==>
              1 <= a.minutes < 60 && a.minutes * MsPerMinute <= diffMs < (a.minutes + 1) * MsPerMinute
    ensures a.HoursAgo? ==>
              1 <= a.hours < 24 && a.hours * MsPerHour <= diffMs < (a.hours + 1) * MsPerHour
    ensures a.DaysAgo? ==>
              1 <= a.days < 7 && a.days * MsPerDay <= diffMs < (a.days + 1) * MsPerDay
    ensures a.OnDate? <==> diffMs >= 7 * MsPerDay
  {
    var minutes := diffMs / MsPerMinute;
    if minutes < 1 then JustNow
    else if minutes < 60 then MinutesAgo(minutes)
    else
      var hours := minutes / 60;
      MinutesThenHours(diffMs);
      if hours < 24 then HoursAgo(hours)
      else
        var days := hours / 24;
        HoursThenDays(diffMs);
        if days < 7 then DaysAgo(days) else OnDate
  }

  /** The ages written as a count followed by a unit. */
  predicate IsCounted(a: Age) {
    a.MinutesAgo? || a.HoursAgo? || a.DaysAgo?
  }

  /** The count a counted age carries. */
  function AgeCount(a: Age): (n: nat)
    requires IsCounted(a)
  {
    match a
    case MinutesAgo(m) => m
    case HoursAgo(h) => h
    case DaysAgo(d) => d
  }

  /** The letter naming the unit of a counted age. */
  function UnitLetter(a: Age): (letter: char)
    requires IsCounted(a)
  {
    match a
    case MinutesAgo(_) => 'm'
    case HoursAgo(_) => 'h'
    case DaysAgo(_) => 'd'
  }

  /** The milliseconds in the unit a letter names. */
  function UnitMs(letter: char): (ms: nat) {
    if letter == 'm' then MsPerMinute else if letter == 'h' then MsPerHour else MsPerDay
  }

  /** A count in decimal followed by a unit letter and " ago", as in "5m ago": the letter
      sits five from the end, and the digits in front read back as the count. */
  function CountText(n: nat, letter: char): (t: string)
    ensures && |t| >= 6 && t[|t| - 5] == letter && t[|t| - 4..] == " ago"
            && IsDigits(t[..|t| - 5]) && DigitsValue(t[..|t| - 5]) == n
            && (|t| > 6 ==> t[0] != '0')
  {
    var digits := NatToString(n);
    var t := digits + [letter] + " ago";
    assert t[..|t| - 5] == digits;
    assert t[|t| - 4..] == " ago";
    NatToStringRoundTrip(n);
    t
  }

  /** The text `getTimeAgo` returns for an age; `dateText` stands for the locale date
      string the browser writes for notifications a week old or older. A counted age is
      its count in decimal, without leading zeros, then the unit letter and " ago". */
  function AgeText(a: Age, dateText: string): (t: string)
    ensures a.JustNow? ==> t == "Just now"
    ensures a.OnDate? ==> t == dateText
    ensures IsCounted(a) ==>
              && |t| >= 6 && t[|t| - 5] == UnitLetter(a) && t[|t| - 4..] == " ago"
              && IsDigits(t[..|t| - 5]) && DigitsValue(t[..|t| - 5]) == AgeCount(a)
              && (|t| > 6 ==> t[0] != '0')
  {
    match a
    case JustNow => "Just now"
    case MinutesAgo(m) => CountText(m, 'm')
    case HoursAgo(h) => CountText(h, 'h')
    case DaysAgo(d) => CountText(d, 'd')
    case OnDate => dateText
  }

  /** From a minute to under a week, the text `getTimeAgo` writes is a count, a unit
      letter and " ago", and the count is the difference floored to that unit; the unit
      is minutes exactly below an hour and days exactly from a day on. */
  lemma AgeTextReadsBack(diffMs: int, dateText: string)
    requires MsPerMinute <= diffMs < 7 * MsPerDay
    ensures var t := AgeText(TimeAgo(diffMs), dateText);
            && |t| >= 6 && t[|t| - 4..] == " ago" && IsDigits(t[..|t| - 5])
            && (var n := DigitsValue(t[..|t| - 5]);
                1 <= n && n * UnitMs(t[|t| - 5]) <= diffMs < (n + 1) * UnitMs(t[|t| - 5]))
    ensures var t := AgeText(TimeAgo(diffMs), dateText);
            && |t| >= 6
            && (t[|t| - 5] == 'm' <==> diffMs < MsPerHour)
            && (t[|t| - 5] == 'h' <==> MsPerHour <= diffMs < MsPerDay)
            && (t[|t| - 5] == 'd' <==> diffMs >= MsPerDay)
  {
    var a := TimeAgo(diffMs);
    assert IsCounted(a);
  }

  /** Under a minute the text is "Just now"; from a week on it is the date text. */
  lemma AgeTextOutsideCounts(diffMs: int, dateText: string)
    ensures diffMs < MsPerMinute ==> AgeText(TimeAgo(diffMs), dateText) == "Just now"
    ensures diffMs >= 7 * MsPerDay ==> AgeText(TimeAgo(diffMs), dateText) == dateText
  {
  }

  /** `getNotificationIconClass`: the CSS class of a notification's icon. */
  function IconClass(kind: string): (c: string)
    ensures c in {"booking", "reminder", "update", "clinic-update"}
    ensures kind in {"booking", "reminder", "update"} ==> c == kind
    ensures kind == "clinic_update" ==> c == "clinic-update"
    ensures kind !in {"booking", "reminder", "update", "clinic_update"} ==> c == "booking"
  {
    match kind
    case "booking" => "booking"
    case "reminder" => "reminder"
    case "update" => "update"
    case "clinic_update" => "clinic-update"
    case _ => "booking"
  }

  /** A booking as another page announces it. An absent or empty service is falsy. */
  datatype BookingData = BookingData(clinicName: string, date: string, time: string, service: Option<string>)

  /** A clinic's announcement of new information. An absent or empty update type is falsy. */
  datatype ClinicData = ClinicData(clinicName: string, updateType: Option<string>)

  /** JavaScript's `value || fallback` for an optional string. */
  function OrDefault(value: Option<string>, fallback: string): (r: string)
    ensures value.Some? && value.value != "" ==> r == value.value
    ensures value.None? || value.value == "" ==> r == fallback
  {
    if value.Some? && value.value != "" then value.value else fallback
  }

  /** The notification `handleNewBooking` builds. */
  function BookingPayload(b: BookingData): (p: Payload)
    ensures p.kind == "booking" && p.title == "Booking Confirmed"
    ensures p.id.None? && p.timestamp.None? && p.read.None?
    ensures |p.details| == 3 && p.details[1] == b.clinicName
    ensures p.details[0] == OrDefault(b.service, "Skincare Consultation")
    ensures p.details[2] == b.date + " " + b.time
  {
    Payload("booking", "Booking Confirmed",
            "Your appointment at " + b.clinicName + " has been confirmed for " + b.date + " at " + b.time + ".",
            [OrDefault(b.service, "Skincare Consultation"), b.clinicName, b.date + " " + b.time],
            None, None, None)
  }

  /** The notification `handleClinicUpdate` builds. */
  function ClinicPayload(c: ClinicData): (p: Payload)
    ensures p.kind == "clinic_update" && p.title == "Clinic Information Updated"
    ensures p.id.None? && p.timestamp.None? && p.read.None?
    ensures p.details == [c.clinicName, OrDefault(c.updateType, "General Update"), "View Details"]
  {
    Payload("clinic_update", "Clinic Information Updated",
            c.clinicName + " has updated their information. Check out the latest details and services.",
            [c.clinicName, OrDefault(c.updateType, "General Update"), "View Details"],
            None, None, None)
  }

  /** `handleNewBooking`: an unread booking notification stamped `now` heads the list. */
  function HandleNewBooking(list: seq<Notification>, b: BookingData, now: int): (r: seq<Notification>)
    ensures |r| == |list| + 1 && r[1..] == list
    ensures r[0].kind == "booking" && !r[0].read && r[0].id == now && r[0].timestamp == now
    ensures UnreadCount(r) == UnreadCount(list) + 1
  {
    AddRaisesUnreadCount(list, BookingPayload(b), now);
    AddNotification(list, BookingPayload(b), now)
  }

  /** `handleClinicUpdate`: an unread clinic-update notification stamped `now` heads the
      list, and its icon uses the "clinic-update" class. */
  function HandleClinicUpdate(list: seq<Notification>, c: ClinicData, now: int): (r: seq<Notification>)
    ensures |r| == |list| + 1 && r[1..] == list
    ensures r[0].kind == "clinic_update" && !r[0].read && r[0].id == now && r[0].timestamp == now
    ensures IconClass(r[0].kind) == "clinic-update"
    ensures UnreadCount(r) == UnreadCount(list) + 1
  {
    AddRaisesUnreadCount(list, ClinicPayload(c), now);
    AddNotification(list, ClinicPayload(c), now)
  }
}
