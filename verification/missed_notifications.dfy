/** The "token missed" notifications: a list that each operation replaces with a new one. A
    notification's id (`Date.now() + Math.random()` in the game) and the time are given by
    the caller. */
module MissedNotifications {
  import opened Common

  datatype Notification = Notification(id: real, timestamp: int)

  /** `addMissedNotification`: one more notification at the end. */
  function AddMissedNotification(list: seq<Notification>, id: real, now: int): (r: seq<Notification>)
    ensures |r| == |list| + 1 && r[..|list|] == list && r[|list|] == Notification(id, now)
  {
    list + [Notification(id, now)]
  }

  /** `removeMissedNotification`: every notification with the id goes, every other one stays. */
  function RemoveMissedNotification(list: seq<Notification>, id: real): (r: seq<Notification>)
    ensures forall n :: n in r <==> n in list && n.id != id
    ensures forall n :: n in list && n.id != id ==> multiset(r)[n] == multiset(list)[n]
    ensures (forall n :: n in list ==> n.id != id) ==> r == list
  {
    var keep := (n: Notification) => n.id != id;
    if forall n :: n in list ==> n.id != id then
      FilterKeepsAll(list, keep);
      Filter(list, keep)
    else Filter(list, keep)
  }

  /** Removing distributes over the parts of a list, so the order of the rest is kept. */
  lemma RemoveKeepsOrder(a: seq<Notification>, b: seq<Notification>, id: real)
    ensures RemoveMissedNotification(a + b, id) == RemoveMissedNotification(a, id) + RemoveMissedNotification(b, id)
  {
    FilterAppend(a, b, (n: Notification) => n.id != id);
  }

  /** Removing a notification just added under a fresh id gives the list back. */
  lemma RemoveUndoesAdd(list: seq<Notification>, id: real, now: int)
    requires forall n :: n in list ==> n.id != id
    ensures RemoveMissedNotification(AddMissedNotification(list, id, now), id) == list
  {
    RemoveKeepsOrder(list, [Notification(id, now)], id);
  }

  /** Removing twice is removing once. */
  lemma RemoveIdempotent(list: seq<Notification>, id: real)
    ensures RemoveMissedNotification(RemoveMissedNotification(list, id), id) == RemoveMissedNotification(list, id)
  {
  }

  /** `clearAllMissedNotifications`. */
  function ClearAllMissedNotifications(list: seq<Notification>): (r: seq<Notification>)
    ensures r == []
  {
    []
  }
}
