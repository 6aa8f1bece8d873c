/** Watching informers through channels that hold one notification: whatever
    arrives while one is waiting is merged with it. */
module Watch {

  /* ----- Subscribers ----- */

  datatype Key = Key(namespace: string, name: string)

  predicate ShouldNotify(key: Key, namespace: string, name: string) {
    if key.namespace != "" && key.namespace != namespace then false
    else if key.name != "" && key.name != name then false
    else true
  }

  /** A channel with room for one notification. */
  class NotificationChan {
    var full: bool

    constructor ()
      ensures !full
    {
      full := false;
    }

    method TrySend()
      modifies this
      ensures full
    {
      full := true;
    }
  }

  class Subscriber {
    const notifyFor: Key
    const notificationChan: NotificationChan

    constructor (notifyFor: Key, notificationChan: NotificationChan)
      ensures this.notifyFor == notifyFor && this.notificationChan == notificationChan
    {
      this.notifyFor := notifyFor;
      this.notificationChan := notificationChan;
    }
  }

  class Watcher {
    var subscribers: map<nat, Subscriber>
    var idCtr: nat

    /** Ids are not used twice, and no channel is shared. */
    ghost predicate Valid()
      reads this
    {
      && (forall id | id in subscribers :: id <= idCtr)
      && (forall id, id' | id in subscribers && id' in subscribers && id != id' ::
            subscribers[id].notificationChan != subscribers[id'].notificationChan)
    }

    ghost function Chans(): set<NotificationChan>
      reads this
    {
      set id | id in subscribers :: subscribers[id].notificationChan
    }

    constructor ()
      ensures Valid() && subscribers == map[]
    {
      subscribers, idCtr := map[], 0;
    }

    method Watch(notifyFor: Key) returns (id: nat, notifications: NotificationChan)
      requires Valid()
      modifies this
      ensures Valid() && fresh(notifications) && !notifications.full
      ensures id !in old(subscribers) && id in subscribers && subscribers == old(subscribers)[id := subscribers[id]]
      ensures subscribers[id].notifyFor == notifyFor && subscribers[id].notificationChan == notifications
    {
      notifications := new NotificationChan();
      var sub := new Subscriber(notifyFor, notifications);
      idCtr := idCtr + 1;
      id := idCtr;
      subscribers := subscribers[id := sub];
    }

    method Cancel(id: nat)
      requires Valid()
      modifies this
      ensures Valid() && subscribers == old(subscribers) - {id}
    {
      subscribers := subscribers - {id};
    }

    /** Whoever watches the object has a notification afterwards; nobody else
        gets one, and nobody loses one. A key without a name watches all objects
        of its namespace, one without a namespace all objects of its name, and an
        empty one everything. */
    method NotifySubscribers(namespace: string, name: string)
      requires Valid()
      modifies Chans()
      ensures forall id | id in subscribers && old(subscribers[id].notificationChan.full) ::
        subscribers[id].notificationChan.full
      ensures forall id, ns, n | id in subscribers && subscribers[id].notifyFor == Key(ns, n) && ns != "" && n != "" ::
        subscribers[id].notificationChan.full
        == (old(subscribers[id].notificationChan.full) || (ns == namespace && n == name))
      ensures forall id, ns | id in subscribers && subscribers[id].notifyFor == Key(ns, "") && ns != "" ::
        subscribers[id].notificationChan.full == (old(subscribers[id].notificationChan.full) || ns == namespace)
      ensures forall id, n | id in subscribers && subscribers[id].notifyFor == Key("", n) && n != "" ::
        subscribers[id].notificationChan.full == (old(subscribers[id].notificationChan.full) || n == name)
      ensures forall id | id in subscribers && subscribers[id].notifyFor == Key("", "") ::
        subscribers[id].notificationChan.full
    {
      var left := subscribers.Keys;
      while left != {}
        invariant left <= subscribers.Keys
        invariant forall id | id in subscribers ::
          subscribers[id].notificationChan.full
          == (old(subscribers[id].notificationChan.full)
              || (id !in left && ShouldNotify(subscribers[id].notifyFor, namespace, name)))
        decreases left
      {
        var id :| id in left;
        if ShouldNotify(subscribers[id].notifyFor, namespace, name) {
          subscribers[id].notificationChan.TrySend();
        }
        left := left - {id};
      }
    }
  }
}
