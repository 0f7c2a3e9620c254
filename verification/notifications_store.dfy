/** The in-app notification list as pure list transformers: the unread count, prepending a new
    notification, marking one or all as read, and clearing. Identifier generation and the clock
    that stamps the date are parameters. */
module NotificationsStore {
  import Seqs
  import opened NotificationService

  datatype Notification = Notification(
    id: string, title: string, message: string, notificationType: NotificationType,
    category: Category, date: string, read: bool)

  /** `notifications.filter(n => !n.read).length`. */
  function UnreadCount(ns: seq<Notification>): (n: nat)
    ensures n <= |ns|
    ensures n == Seqs.Count(ns, (x: Notification) => !x.read)
  {
    Seqs.CountIsFilterLength(ns, (x: Notification) => !x.read);
    |Seqs.Filter(ns, (x: Notification) => !x.read)|
  }

  /** Nothing is unread exactly when every notification is read. */
  lemma NoneUnreadIff(ns: seq<Notification>)
    ensures UnreadCount(ns) == 0 <==> forall i :: 0 <= i < |ns| ==> ns[i].read
  {
    Seqs.CountZero(ns, (x: Notification) => !x.read);
  }

  /** `addNotification`: the new notification, unread, in front of the others. */
  function AddNotification(ns: seq<Notification>, data: NotificationData, id: string, date: string): (r: seq<Notification>)
    ensures |r| == |ns| + 1 && r[1..] == ns
    ensures r[0] == Notification(id, data.title, data.message, data.notificationType, data.category, date, false)
  {
    [Notification(id, data.title, data.message, data.notificationType, data.category, date, false)] + ns
  }

  /** Adding a notification raises the unread count by one. */
  lemma AddRaisesUnread(ns: seq<Notification>, data: NotificationData, id: string, date: string)
    ensures UnreadCount(AddNotification(ns, data, id, date)) == UnreadCount(ns) + 1
  {
    var r := AddNotification(ns, data, id, date);
    assert r[1..] == ns;
  }

  /** `markAsRead(id)`: every notification with that id becomes read; all else is untouched. */
  function MarkAsRead(ns: seq<Notification>, id: string): (r: seq<Notification>)
    ensures |r| == |ns|
    ensures forall i :: 0 <= i < |ns| ==> r[i] == if ns[i].id == id then ns[i].(read := true) else ns[i]
  {
    Seqs.Map(ns, (n: Notification) => if n.id == id then n.(read := true) else n)
  }

  /** Marking an unknown id changes nothing, and marking twice is marking once. */
  lemma MarkAsReadNoopAndIdempotent(ns: seq<Notification>, id: string)
    ensures (forall i :: 0 <= i < |ns| ==> ns[i].id != id) ==> MarkAsRead(ns, id) == ns
    ensures MarkAsRead(MarkAsRead(ns, id), id) == MarkAsRead(ns, id)
  {
  }

  /** The unread count drops by the number of unread notifications carrying the id. */
  lemma {:induction false} MarkAsReadCount(ns: seq<Notification>, id: string)
    ensures UnreadCount(MarkAsRead(ns, id)) ==
              UnreadCount(ns) - Seqs.Count(ns, (x: Notification) => !x.read && x.id == id)
    decreases |ns|
  {
    if ns != [] {
      MarkAsReadCount(ns[1..], id);
      assert MarkAsRead(ns, id)[1..] == MarkAsRead(ns[1..], id);
    }
  }

  /** `markAllAsRead`. */
  function MarkAllAsRead(ns: seq<Notification>): (r: seq<Notification>)
    ensures |r| == |ns|
    ensures forall i :: 0 <= i < |ns| ==> r[i] == ns[i].(read := true)
  {
    Seqs.Map(ns, (n: Notification) => n.(read := true))
  }

  /** After marking all, nothing is unread. */
  lemma MarkAllClearsUnread(ns: seq<Notification>)
    ensures UnreadCount(MarkAllAsRead(ns)) == 0
  {
    NoneUnreadIff(MarkAllAsRead(ns));
  }

  /** `clearAll`. */
  function ClearAll(ns: seq<Notification>): (r: seq<Notification>)
    ensures r == [] && UnreadCount(r) == 0
  {
    []
  }
}
