/** The subscription table of server/src/routes/push.js: a JavaScript `Map` from
    `req.user?._id` to the body of `/subscribe`, read by `sendNotification` and
    pruned when the push service answers 410. The key is an ObjectId, an object:
    the user document is loaded afresh for every request, so every request brings
    a new ObjectId instance, and a `Map` compares object keys by identity. The
    push service itself is not part of this model: the outcome of one send is a
    parameter. */
module PushRoutes {
  import opened Common

  const NotificationTitle: string := "N\U{00E1}kupn\U{00ED} Seznam"

  /** A `Map` key: the ObjectId instance numbered `instance`, or a string. */
  datatype MapKey = ObjectKey(instance: nat) | StringKey(s: string)

  /** What `webpush.sendNotification` does with one payload. */
  datatype SendOutcome = Sent | Failed(statusCode: Option<int>)

  datatype Payload = Payload(title: string, body: string)

  class PushTable {
    /** `subscriptions`, in insertion order. */
    var subscriptions: Assoc<MapKey, Json>
    /** The user id of every ObjectId instance handed out so far; instance `i`
        is the key `ObjectKey(i)`. */
    var instances: seq<string>

    ghost predicate Valid()
      reads this
    {
      && KeysDistinct(subscriptions)
      && forall i :: 0 <= i < |subscriptions| ==>
           subscriptions[i].0.ObjectKey? && subscriptions[i].0.instance < |instances|
    }

    constructor ()
      ensures Valid() && subscriptions == [] && instances == []
    {
      subscriptions, instances := [], [];
    }

    /** POST /subscribe: without a user 401 and nothing stored; otherwise the
        body is stored under this request's own ObjectId. That key is new, so the
        entry is appended and no earlier subscription, not even one of the same
        user, is replaced. */
    method Subscribe(userId: Option<string>, subscription: Json) returns (r: Response<()>, key: Option<MapKey>)
      requires Valid()
      modifies this
      ensures Valid()
      ensures userId.None? ==>
        r == Unauthorized && key.None? && subscriptions == old(subscriptions) && instances == old(instances)
      ensures userId.Some? ==>
        r == Created(()) && key == Some(ObjectKey(|old(instances)|))
        && instances == old(instances) + [userId.value]
        && subscriptions == old(subscriptions) + [(key.value, subscription)]
      ensures forall i :: 0 <= i < |old(subscriptions)| ==> subscriptions[i] == old(subscriptions)[i]
    {
      if userId.None? {
        return Unauthorized, None;
      }
      var k := ObjectKey(|instances|);
      assert !HasKey(subscriptions, k);
      subscriptions := Put(subscriptions, k, subscription);
      instances := instances + [userId.value];
      r, key := Created(()), Some(k);
    }

    /** `sendNotification(userId, message)` with the key the caller passes:
        returns the payload handed to the push service, if a subscription is
        stored under that very key. A 410 drops that entry and no other. */
    method SendNotification(key: MapKey, message: string, outcome: SendOutcome) returns (sent: Option<Payload>)
      requires Valid()
      modifies this`subscriptions
      ensures Valid()
      ensures Get(old(subscriptions), key).None? ==> sent.None? && subscriptions == old(subscriptions)
      ensures key.StringKey? ==> sent.None?
      ensures Get(old(subscriptions), key).Some? ==> sent == Some(Payload("N\U{00E1}kupn\U{00ED} Seznam", message))
      ensures Get(old(subscriptions), key).Some? && outcome == Failed(Some(410)) ==>
        subscriptions == Remove(old(subscriptions), key)
        && Get(subscriptions, key).None?
        && forall k :: k != key ==> Get(subscriptions, k) == Get(old(subscriptions), k)
      ensures outcome != Failed(Some(410)) ==> subscriptions == old(subscriptions)
    {
      if key.StringKey? {
        assert !HasKey(subscriptions, key);
      }
      var subscription := Get(subscriptions, key);
      if subscription.None? {
        return None;
      }
      sent := Some(Payload(NotificationTitle, message));
      if outcome.Failed? && outcome.statusCode == Some(410) {
        RemoveDistinct(subscriptions, key);
        forall k ensures Get(Remove(subscriptions, key), k) == if k == key then None else Get(subscriptions, k) {
          RemoveGet(subscriptions, key, k);
        }
        forall i | 0 <= i < |Remove(subscriptions, key)|
          ensures Remove(subscriptions, key)[i] in subscriptions
        {
          RemoveKeeps(subscriptions, key, Remove(subscriptions, key)[i]);
        }
        subscriptions := Remove(subscriptions, key);
      }
    }
  }

  /** Two subscriptions of the same user are two entries: the first is still
      found under the first request's key, the second under the second's, and
      the user's id as a string finds neither. */
  method SubscribeTwice(userId: string, first: Json, second: Json)
    returns (k1: MapKey, k2: MapKey, entries: Assoc<MapKey, Json>, byString: Option<Payload>)
    ensures k1 != k2
    ensures entries == [(k1, first), (k2, second)]
    ensures Get(entries, k1) == Some(first) && Get(entries, k2) == Some(second)
    ensures byString.None?
  {
    var table := new PushTable();
    var r1, key1 := table.Subscribe(Some(userId), first);
    var r2, key2 := table.Subscribe(Some(userId), second);
    k1, k2 := key1.value, key2.value;
    assert table.subscriptions == [(k1, first), (k2, second)];
    assert table.instances == [userId, userId];
    entries := table.subscriptions;
    assert IndexOfKey(entries, k1) == Some(0);
    assert IndexOfKey(entries, k2) == Some(1);
    byString := table.SendNotification(StringKey(userId), "", Sent);
  }
}
