/**
 * Notifications (`src/main/java/com/phoenix/service/NotificationService.java`
 * and the two bulk updates of `NotificationRepository.java`): nobody is
 * notified of their own action, a new notification is unread, and read
 * marking is per recipient.
 */
module NotificationService {
  import opened Wrappers
  import opened Text
  import opened Database

  /** The ids of the recipient's unread notifications. */
  function UnreadIds(notifications: map<Uuid, Notification>, email: string): set<Uuid> {
    set id | id in notifications && notifications[id].recipient == email && !notifications[id].isRead
  }

  /** `getUnreadCount`. */
  function UnreadCount(notifications: map<Uuid, Notification>, email: string): (r: nat)
    ensures r == 0 <==> forall id :: id in notifications && notifications[id].recipient == email ==>
      notifications[id].isRead
  {
    var ids := UnreadIds(notifications, email);
    assert forall id :: id in notifications && notifications[id].recipient == email && !notifications[id].isRead ==>
      id in ids;
    |ids|
  }

  /** `createNotification`: skipped when the recipient's address equals the actor's, ignoring case. */
  method CreateNotification(db: Db, recipient: string, kind: NotificationType, actorName: string,
                            actorEmail: string, message: string, postId: Option<Uuid>,
                            postTitle: Option<string>, newId: Uuid)
    requires newId !in db.notifications
    modifies db`notifications
    ensures EqualsIgnoreCase(recipient, actorEmail) ==> db.notifications == old(db.notifications)
    ensures !EqualsIgnoreCase(recipient, actorEmail) ==>
      db.notifications == old(db.notifications)[newId := Notification(recipient, kind, actorName, message, postId, postTitle, false)]
  {
    if EqualsIgnoreCase(recipient, actorEmail) {
      return;
    }
    var notification := Notification(recipient, kind, actorName, message, postId, postTitle, false);
    db.notifications := db.notifications[newId := notification];
  }

  /** A new notification under a fresh id raises its recipient's unread count by one and no one else's. */
  lemma AddedNotificationIsUnread(notifications: map<Uuid, Notification>, newId: Uuid, n: Notification, email: string)
    requires newId !in notifications && !n.isRead
    ensures UnreadCount(notifications[newId := n], email) ==
      UnreadCount(notifications, email) + (if n.recipient == email then 1 else 0)
  {
    var before := UnreadIds(notifications, email);
    var after := UnreadIds(notifications[newId := n], email);
    if n.recipient == email {
      assert after == before + {newId};
    } else {
      assert after == before;
    }
  }

  /** The `markAsRead` update: only that id, and only when it belongs to that address. */
  function MarkRead(notifications: map<Uuid, Notification>, id: Uuid, email: string): (r: map<Uuid, Notification>)
    ensures r.Keys == notifications.Keys
    ensures forall k :: k in r && k != id ==> r[k] == notifications[k]
    ensures id in r ==> r[id] == if notifications[id].recipient == email
      then notifications[id].(isRead := true) else notifications[id]
  {
    if id in notifications && notifications[id].recipient == email
    then notifications[id := notifications[id].(isRead := true)]
    else notifications
  }

  /** Marking the same notification twice is marking it once. */
  lemma MarkReadIdempotent(notifications: map<Uuid, Notification>, id: Uuid, email: string)
    ensures MarkRead(MarkRead(notifications, id, email), id, email) == MarkRead(notifications, id, email)
  {
  }

  /** The `markAllAsRead` update. */
  function MarkAllRead(notifications: map<Uuid, Notification>, email: string): (r: map<Uuid, Notification>)
    ensures r.Keys == notifications.Keys
    ensures forall k :: k in r ==> r[k] == if notifications[k].recipient == email
      then notifications[k].(isRead := true) else notifications[k]
  {
    map k | k in notifications :: if notifications[k].recipient == email
      then notifications[k].(isRead := true) else notifications[k]
  }

  /** After marking all, the recipient has nothing unread and every other recipient's count is unchanged. */
  lemma MarkAllReadCounts(notifications: map<Uuid, Notification>, email: string, other: string)
    ensures UnreadCount(MarkAllRead(notifications, email), email) == 0
    ensures other != email ==>
      UnreadCount(MarkAllRead(notifications, email), other) == UnreadCount(notifications, other)
  {
    var marked := MarkAllRead(notifications, email);
    assert UnreadIds(marked, email) == {};
    if other != email {
      assert UnreadIds(marked, other) == UnreadIds(notifications, other);
    }
  }

  /** `markAsRead(id, email)`. */
  method MarkAsRead(db: Db, id: Uuid, email: string)
    modifies db`notifications
    ensures db.notifications == MarkRead(old(db.notifications), id, email)
  {
    if id in db.notifications && db.notifications[id].recipient == email {
      db.notifications := db.notifications[id := db.notifications[id].(isRead := true)];
    }
  }

  /** `markAllAsRead(email)`. */
  method MarkAllAsRead(db: Db, email: string)
    modifies db`notifications
    ensures db.notifications == MarkAllRead(old(db.notifications), email)
    ensures UnreadCount(db.notifications, email) == 0
  {
    db.notifications := map k | k in db.notifications :: if db.notifications[k].recipient == email
      then db.notifications[k].(isRead := true) else db.notifications[k];
    MarkAllReadCounts(old(db.notifications), email, email);
  }
}
