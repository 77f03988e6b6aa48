/**
 * The orders document: a `pending` list (newest first), a `delivered` map from
 * order id to order, and a `canceled` list.  This module holds the order
 * record and the list operations the handlers use on `pending`.
 */
module Orders {
  import opened Wrappers

  datatype Status = Pending | Delivered | Canceled

  /** One entry of a delivered order's `assigned` list. */
  datatype AssignedKey = AssignedKey(key: string, productName: string)

  /**
   * An order record.  The last three fields exist only once the order has been
   * delivered (`assigned` as `assignedKeys`, and `deliveredAt`) or canceled (`canceledAt`).
   */
  datatype Order = Order(
    orderId: string,
    productId: string,
    qty: int,
    name: string,
    email: string,
    total: int,
    proofPath: Option<string>,
    status: Status,
    createdAt: string,
    assignedKeys: Option<seq<AssignedKey>>,
    deliveredAt: Option<string>,
    canceledAt: Option<string>)

  /**
   * `pending.findIndex(o => o.orderId === orderId)`: the index of the first
   * order with that id, or -1 when there is none.
   */
  function FindOrder(pending: seq<Order>, orderId: string): (r: int)
    ensures -1 <= r < |pending|
    ensures r == -1 <==> forall j :: 0 <= j < |pending| ==> pending[j].orderId != orderId
    ensures 0 <= r ==> pending[r].orderId == orderId
    ensures 0 <= r ==> forall j :: 0 <= j < r ==> pending[j].orderId != orderId
  {
    if pending == [] then -1
    else if pending[0].orderId == orderId then 0
    else
      var r := FindOrder(pending[1..], orderId);
      if r == -1 then -1 else r + 1
  }

  /** `s.splice(i, 1)`: the list without its `i`-th element, the others in their old order. */
  function RemoveAt<T>(s: seq<T>, i: nat): (r: seq<T>)
    requires i < |s|
    ensures |r| == |s| - 1
    ensures forall j :: 0 <= j < i ==> r[j] == s[j]
    ensures forall j :: i <= j < |r| ==> r[j] == s[j + 1]
    ensures multiset(r) + multiset{s[i]} == multiset(s)
  {
    assert s == s[..i] + [s[i]] + s[i + 1..];
    s[..i] + s[i + 1..]
  }

  /** `assigned.map(k => ({ key: k, productName }))` */
  function Tag(keys: seq<string>, productName: string): (r: seq<AssignedKey>)
    ensures |r| == |keys|
    ensures forall i :: 0 <= i < |keys| ==> r[i] == AssignedKey(keys[i], productName)
  {
    if keys == [] then []
    else [AssignedKey(keys[0], productName)] + Tag(keys[1..], productName)
  }

  /** The bare keys of an `assigned` list. */
  function KeysOfAssigned(a: seq<AssignedKey>): (r: seq<string>)
    ensures |r| == |a|
    ensures forall i :: 0 <= i < |a| ==> r[i] == a[i].key
  {
    if a == [] then [] else [a[0].key] + KeysOfAssigned(a[1..])
  }

  /** The bare keys a (delivered) order carries; none when it has no `assigned` list. */
  function DeliveredKeys(o: Order): seq<string> {
    KeysOfAssigned(o.assignedKeys.GetOr([]))
  }

  /** A delivered record keeps exactly the allocated keys, in allocation order. */
  lemma {:induction false} TagKeepsKeys(keys: seq<string>, productName: string)
    ensures KeysOfAssigned(Tag(keys, productName)) == keys
  {
    if keys != [] {
      TagKeepsKeys(keys[1..], productName);
      assert Tag(keys, productName) == [AssignedKey(keys[0], productName)] + Tag(keys[1..], productName);
    }
  }

  /** The set of order ids in a list. */
  function Ids(s: seq<Order>): (r: set<string>)
    ensures forall j :: 0 <= j < |s| ==> s[j].orderId in r
    ensures forall id :: id in r ==> exists j :: 0 <= j < |s| && s[j].orderId == id
  {
    set o | o in s :: o.orderId
  }

  ghost predicate DistinctIds(s: seq<Order>) {
    forall i, j :: 0 <= i < j < |s| ==> s[i].orderId != s[j].orderId
  }

  /** Splicing out element `i` removes its id from the set of ids, when ids are distinct. */
  lemma RemoveAtIds(s: seq<Order>, i: nat)
    requires DistinctIds(s) && i < |s|
    ensures Ids(RemoveAt(s, i)) == Ids(s) - {s[i].orderId}
  {
    var r := RemoveAt(s, i);
    forall j | 0 <= j < |r| ensures r[j].orderId != s[i].orderId && r[j].orderId in Ids(s) {
      if j < i { assert r[j] == s[j]; } else { assert r[j] == s[j + 1]; }
    }
    forall id | id in Ids(s) && id != s[i].orderId ensures id in Ids(r) {
      var j :| 0 <= j < |s| && s[j].orderId == id;
      if j < i { assert r[j] == s[j]; } else { assert r[j - 1] == s[j]; }
    }
  }

  /**
   * Once the only order with a given id has been spliced out of `pending`, no
   * order with that id is left: looking it up again finds nothing.
   */
  lemma RemovedIdGone(s: seq<Order>, i: nat)
    requires DistinctIds(s) && i < |s|
    ensures FindOrder(RemoveAt(s, i), s[i].orderId) == -1
    ensures DistinctIds(RemoveAt(s, i))
  {
    var r := RemoveAt(s, i);
    forall j | 0 <= j < |r| ensures r[j] == s[if j < i then j else j + 1] {}
  }

  /**
   * The ledger invariant: every order id is in at most one of pending,
   * delivered and canceled, at most once, and a delivered order is filed under
   * its own id.
   */
  ghost predicate IdsUnique(pending: seq<Order>, delivered: map<string, Order>, canceled: seq<Order>) {
    && DistinctIds(pending)
    && DistinctIds(canceled)
    && Ids(pending) !! delivered.Keys
    && Ids(pending) !! Ids(canceled)
    && Ids(canceled) !! delivered.Keys
    && forall id :: id in delivered ==> delivered[id].orderId == id
  }

  /** Putting an order with a fresh id at the front of `pending` keeps the invariant. */
  lemma UnshiftKeepsIdsUnique(o: Order, pending: seq<Order>, delivered: map<string, Order>, canceled: seq<Order>)
    requires IdsUnique(pending, delivered, canceled)
    requires o.orderId !in Ids(pending) && o.orderId !in delivered && o.orderId !in Ids(canceled)
    ensures IdsUnique([o] + pending, delivered, canceled)
  {
    var p := [o] + pending;
    assert Ids(p) == {o.orderId} + Ids(pending) by {
      forall id | id in Ids(p) ensures id in {o.orderId} + Ids(pending) {
        var j :| 0 <= j < |p| && p[j].orderId == id;
        if j > 0 { assert p[j] == pending[j - 1]; }
      }
    }
    forall i, j | 0 <= i < j < |p| ensures p[i].orderId != p[j].orderId {
      assert p[j] == pending[j - 1];
      if i > 0 { assert p[i] == pending[i - 1]; }
    }
  }

  /** Moving `pending[i]` into `delivered` under its id keeps the invariant. */
  lemma DeliverKeepsIdsUnique(pending: seq<Order>, delivered: map<string, Order>, canceled: seq<Order>, i: nat, d: Order)
    requires IdsUnique(pending, delivered, canceled)
    requires i < |pending| && d.orderId == pending[i].orderId
    ensures IdsUnique(RemoveAt(pending, i), delivered[d.orderId := d], canceled)
  {
    RemovedIdGone(pending, i);
    RemoveAtIds(pending, i);
  }

  /** Moving `pending[i]` to the end of `canceled` keeps the invariant. */
  lemma CancelKeepsIdsUnique(pending: seq<Order>, delivered: map<string, Order>, canceled: seq<Order>, i: nat, c: Order)
    requires IdsUnique(pending, delivered, canceled)
    requires i < |pending| && c.orderId == pending[i].orderId
    ensures IdsUnique(RemoveAt(pending, i), delivered, canceled + [c])
  {
    RemovedIdGone(pending, i);
    RemoveAtIds(pending, i);
    var c' := canceled + [c];
    assert Ids(c') == Ids(canceled) + {c.orderId} by {
      forall id | id in Ids(c') ensures id in Ids(canceled) + {c.orderId} {
        var j :| 0 <= j < |c'| && c'[j].orderId == id;
        if j < |canceled| { assert c'[j] == canceled[j]; }
      }
    }
    forall a, b | 0 <= a < b < |c'| ensures c'[a].orderId != c'[b].orderId {
      assert c'[a] == canceled[a];
      if b < |canceled| { assert c'[b] == canceled[b]; }
    }
  }
}
