/**
 * The notification menu in the top bar: a list of notifications with an
 * unread badge, "Mark all as read", and marking one item read by selecting it.
 * Each action replaces the list with a mapped copy.
 */
module NotificationMenu {
  import opened Wrappers

  /** A notification; `unread` may be missing, which counts as read. */
  datatype Notif = Notif(id: string, title: string, description: Option<string>, time: string, unread: Option<bool>)

  predicate IsUnread(n: Notif) {
    n.unread == Some(true)
  }

  /** `notifications.filter((n) => n.unread).length`. */
  function UnreadCount(ns: seq<Notif>): (c: nat)
    ensures c <= |ns|
  {
    if ns == [] then 0 else (if IsUnread(ns[0]) then 1 else 0) + UnreadCount(ns[1..])
  }

  /** The entry with `unread: false` and every other field kept. */
  function MarkedRead(n: Notif): Notif {
    n.(unread := Some(false))
  }

  /** `markAllAsRead`: every entry is read; the order and every other field are kept. */
  function MarkAllRead(ns: seq<Notif>): (r: seq<Notif>)
    ensures |r| == |ns|
    ensures forall i :: 0 <= i < |ns| ==> r[i] == MarkedRead(ns[i])
  {
    if ns == [] then [] else [MarkedRead(ns[0])] + MarkAllRead(ns[1..])
  }

  /** Selecting item `k`: the entries with id `k` become read, all others stay as they were. */
  function MarkRead(ns: seq<Notif>, k: string): (r: seq<Notif>)
    ensures |r| == |ns|
    ensures forall i :: 0 <= i < |ns| ==> r[i] == if ns[i].id == k then MarkedRead(ns[i]) else ns[i]
  {
    if ns == [] then []
    else [if ns[0].id == k then MarkedRead(ns[0]) else ns[0]] + MarkRead(ns[1..], k)
  }

  /** How many unread entries carry the id `k`. */
  function UnreadWithId(ns: seq<Notif>, k: string): nat {
    if ns == [] then 0 else (if ns[0].id == k && IsUnread(ns[0]) then 1 else 0) + UnreadWithId(ns[1..], k)
  }

  /** After "Mark all as read" nothing is unread. */
  lemma {:induction false} MarkAllReadClearsCount(ns: seq<Notif>)
    ensures UnreadCount(MarkAllRead(ns)) == 0
  {
    if ns != [] {
      MarkAllReadClearsCount(ns[1..]);
      assert MarkAllRead(ns)[1..] == MarkAllRead(ns[1..]);
    }
  }

  /** "Mark all as read" twice is the same as once. */
  lemma MarkAllReadIdempotent(ns: seq<Notif>)
    ensures MarkAllRead(MarkAllRead(ns)) == MarkAllRead(ns)
  {
  }

  /** Selecting `k` lowers the count by exactly the number of unread entries with id `k`. */
  lemma {:induction false} MarkReadCount(ns: seq<Notif>, k: string)
    ensures UnreadCount(MarkRead(ns, k)) + UnreadWithId(ns, k) == UnreadCount(ns)
  {
    if ns != [] {
      MarkReadCount(ns[1..], k);
      assert MarkRead(ns, k)[1..] == MarkRead(ns[1..], k);
    }
  }

  lemma {:induction false} NoUnreadWithId(ns: seq<Notif>, k: string)
    requires forall i :: 0 <= i < |ns| && ns[i].id == k ==> !IsUnread(ns[i])
    ensures UnreadWithId(ns, k) == 0
  {
    if ns != [] {
      NoUnreadWithId(ns[1..], k);
    }
  }

  /** Selecting an item that is already read leaves the count unchanged. */
  lemma SelectReadItemKeepsCount(ns: seq<Notif>, k: string)
    requires forall i :: 0 <= i < |ns| && ns[i].id == k ==> !IsUnread(ns[i])
    ensures UnreadCount(MarkRead(ns, k)) == UnreadCount(ns)
  {
    MarkReadCount(ns, k);
    NoUnreadWithId(ns, k);
  }

  /** No two entries share an id. */
  ghost predicate UniqueIds(ns: seq<Notif>) {
    forall i, j :: 0 <= i < j < |ns| ==> ns[i].id != ns[j].id
  }

  /** With unique ids, selecting an unread item lowers the count by exactly one. */
  lemma {:induction false} SelectUnreadItemDecrements(ns: seq<Notif>, p: nat)
    requires UniqueIds(ns) && p < |ns| && IsUnread(ns[p])
    ensures UnreadCount(MarkRead(ns, ns[p].id)) == UnreadCount(ns) - 1
  {
    var k := ns[p].id;
    MarkReadCount(ns, k);
    UniqueUnreadWithId(ns, p);
  }

  lemma {:induction false} UniqueUnreadWithId(ns: seq<Notif>, p: nat)
    requires UniqueIds(ns) && p < |ns| && IsUnread(ns[p])
    ensures UnreadWithId(ns, ns[p].id) == 1
  {
    var k := ns[p].id;
    if p == 0 {
      NoUnreadWithId(ns[1..], k);
    } else {
      assert UniqueIds(ns[1..]) by {
        forall i, j | 0 <= i < j < |ns[1..]| ensures ns[1..][i].id != ns[1..][j].id {
          assert ns[1..][i] == ns[i + 1] && ns[1..][j] == ns[j + 1];
        }
      }
      assert ns[1..][p - 1] == ns[p];
      UniqueUnreadWithId(ns[1..], p - 1);
      assert ns[0].id != k;
    }
  }

  /** The initial mock list: two unread, one read. */
  function InitialNotifications(): seq<Notif> {
    [
      Notif("1", "New handout posted", Some("Data Structures • Arrays & Lists"), "2m", Some(true)),
      Notif("2", "Quiz reminder", Some("DB Systems • Quiz 2 due tonight"), "1h", Some(true)),
      Notif("3", "Grade released", Some("UI/UX Intro • Flexbox Assignment"), "Yesterday", Some(false))
    ]
  }

  lemma InitialUnreadCount()
    ensures UnreadCount(InitialNotifications()) == 2
    ensures UniqueIds(InitialNotifications())
  {
    var ns := InitialNotifications();
    assert ns[1..][1..][1..] == [];
  }

  /** The component's state: the list that the two actions replace. */
  class Menu {
    var notifications: seq<Notif>

    constructor ()
      ensures notifications == InitialNotifications()
      ensures UnreadCount(notifications) == 2 && UniqueIds(notifications)
    {
      InitialUnreadCount();
      notifications := InitialNotifications();
    }

    /** The red badge: the unread count, shown only when positive. */
    function Badge(): (b: Option<nat>)
      reads this
      ensures b.Some? <==> UnreadCount(notifications) > 0
      ensures b.Some? ==> b.value == UnreadCount(notifications)
    {
      var c := UnreadCount(notifications);
      if c > 0 then Some(c) else None
    }

    /** "You're all caught up" replaces the list exactly when there is nothing in it. */
    predicate AllCaughtUp()
      reads this
      ensures AllCaughtUp() ==> Badge().None?
    {
      |notifications| == 0
    }

    method MarkAllAsRead()
      modifies this
      ensures notifications == MarkAllRead(old(notifications))
      ensures UnreadCount(notifications) == 0 && Badge().None?
    {
      MarkAllReadClearsCount(notifications);
      notifications := MarkAllRead(notifications);
    }

    /** `onSelect` of the item with id `k`. */
    method Select(k: string)
      modifies this
      ensures notifications == MarkRead(old(notifications), k)
      ensures UnreadCount(notifications) == UnreadCount(old(notifications)) - UnreadWithId(old(notifications), k)
    {
      MarkReadCount(notifications, k);
      notifications := MarkRead(notifications, k);
    }
  }
}
