/**
 * The storefront's order workflow: the state behind the request handlers
 * `/api/products`, `/api/buy`, `/api/admin/verify` and `/api/admin/cancel`.
 * The two JSON documents (inventory and orders) are the fields of a `Shop`;
 * each handler reads them and writes them back whole, which here is the
 * assignment of the fields.  Order ids, upload file names and timestamps are
 * generated outside and come in as parameters.
 */
module Shop {
  import opened Wrappers
  import opened Catalog
  import opened Orders

  /** The outcome of a handler, one variant per HTTP status and message pair. */
  datatype Reply = Ok | BadRequest(message: string) | NotFound | NotEnoughStock {

    function HttpStatus(): (r: int)
      ensures r == 200 <==> Ok?
      ensures r == 404 <==> NotFound?
      ensures !Ok? && !NotFound? ==> r == 400
    {
      match this
      case Ok => 200
      case BadRequest(_) => 400
      case NotFound => 404
      case NotEnoughStock => 400
    }

    /** The `message` of an `{ ok: false, message }` body. */
    function ErrorMessage(): (r: string)
      requires !Ok?
      ensures BadRequest? ==> r == message
      ensures NotFound? ==> r == "Order not found"
      ensures NotEnoughStock? ==> r == "Not enough stock"
    {
      match this
      case BadRequest(m) => m
      case NotFound => "Order not found"
      case NotEnoughStock => "Not enough stock"
    }
  }

  /** `req.file ? `/uploads/${req.file.filename}` : null` */
  function ProofPath(upload: Option<string>): (r: Option<string>)
    ensures r.Some? <==> upload.Some?
    ensures r.Some? ==> |r.value| >= 9 && r.value[..9] == "/uploads/" && r.value[9..] == upload.value
  {
    match upload
    case Some(f) => Some("/uploads/" + f)
    case None => None
  }

  /** How many times `for (let i = 0; i < qty; i++)` runs. */
  function Allocation(qty: int): (r: nat)
    ensures r >= qty
    ensures r > 0 ==> r == qty
  {
    if qty < 0 then 0 else qty
  }

  /**
   * No key is issued twice: a key in a delivered order is no longer in any
   * product's key list, no two delivered orders share a key, and no delivered
   * order lists the same key twice.
   */
  ghost predicate KeysIssuedOnce(inv: map<string, Product>, delivered: map<string, Order>) {
    && (forall id, q, k :: id in delivered && q in inv && k in DeliveredKeys(delivered[id]) ==>
          k !in KeysOf(inv[q]))
    && (forall a, b, k :: a in delivered && b in delivered && a != b && k in DeliveredKeys(delivered[a]) ==>
          k !in DeliveredKeys(delivered[b]))
    && (forall id :: id in delivered ==> NoDuplicates(DeliveredKeys(delivered[id])))
  }

  /**
   * Filing an order whose keys are the first `n` keys of product `pid` while
   * taking those keys out of the inventory keeps every key issued at most once.
   */
  lemma DeliverIssuesOnce(inv: map<string, Product>, delivered: map<string, Order>,
                          pid: string, n: nat, id: string, record: Order)
    requires KeysDistinct(inv) && KeysIssuedOnce(inv, delivered)
    requires pid in inv && n <= Stock(inv[pid])
    requires DeliveredKeys(record) == KeysOf(inv[pid])[..n]
    ensures KeysIssuedOnce(inv[pid := Withdraw(inv[pid], n)], delivered[id := record])
  {
    var inv' := inv[pid := Withdraw(inv[pid], n)];
    var d' := delivered[id := record];
    var ks := KeysOf(inv[pid]);
    WithdrawIssuesOnce(inv, pid, n);
    // what is left in the inventory was there before
    forall q, k | q in inv' && k in KeysOf(inv'[q]) ensures k in KeysOf(inv[q]) {
      if q == pid {
        var i :| 0 <= i < |ks[n..]| && ks[n..][i] == k;
        assert ks[n + i] == k;
      }
    }
    // the newly issued keys come from product `pid`
    forall k | k in ks[..n] ensures k in ks {
      var i :| 0 <= i < n && ks[..n][i] == k;
      assert ks[i] == k;
    }
    forall a, q, k | a in d' && q in inv' && k in DeliveredKeys(d'[a]) ensures k !in KeysOf(inv'[q]) {
      if a != id {
        assert k !in KeysOf(inv[q]);
      }
    }
    forall a, b, k | a in d' && b in d' && a != b && k in DeliveredKeys(d'[a])
      ensures k !in DeliveredKeys(d'[b])
    {
      if a == id {
        assert k in KeysOf(inv[pid]);
      } else if b == id {
        assert k !in KeysOf(inv[pid]);
      }
    }
    assert NoDuplicates(ks);
    assert NoDuplicates(DeliveredKeys(record));
  }

  class Shop {
    /** The inventory document, and the order of its keys (what `Object.values` follows). */
    var inventory: map<string, Product>
    var productIds: seq<string>
    /** The orders document; `canceled` is absent until the first cancellation. */
    var pending: seq<Order>
    var delivered: map<string, Order>
    var canceled: Option<seq<Order>>

    /** `productIds` lists every key of the inventory document exactly once. */
    ghost predicate Valid()
      reads this
    {
      && (forall id :: id in productIds <==> id in inventory)
      && (forall i, j :: 0 <= i < j < |productIds| ==> productIds[i] != productIds[j])
    }

    /** The ledger invariant over the three order collections. */
    ghost predicate LedgerConsistent()
      reads this
    {
      IdsUnique(pending, delivered, canceled.GetOr([]))
    }

    /** No key is issued twice, across all verifications so far. */
    ghost predicate IssuedOnce()
      reads this
    {
      KeysIssuedOnce(inventory, delivered)
    }

    /** Every order id the ledger knows. */
    ghost function KnownIds(): set<string>
      reads this
    {
      Ids(pending) + delivered.Keys + Ids(canceled.GetOr([]))
    }

    /** The first start: the seeded sample inventory and an orders document `{ pending: [], delivered: {} }`. */
    constructor Seeded()
      ensures Valid() && LedgerConsistent() && KeysDistinct(inventory) && IssuedOnce()
      ensures inventory == SampleInventory() && productIds == SAMPLE_IDS
      ensures pending == [] && delivered == map[] && canceled == None
    {
      inventory := SampleInventory();
      productIds := SAMPLE_IDS;
      pending := [];
      delivered := map[];
      canceled := None;
      new;
      SampleKeysDistinct();
    }

    /** A start from existing documents. */
    constructor Load(inv: map<string, Product>, ids: seq<string>,
                     pend: seq<Order>, deliv: map<string, Order>, canc: Option<seq<Order>>)
      requires forall id :: id in ids <==> id in inv
      requires forall i, j :: 0 <= i < j < |ids| ==> ids[i] != ids[j]
      ensures Valid()
      ensures inventory == inv && productIds == ids
      ensures pending == pend && delivered == deliv && canceled == canc
    {
      inventory, productIds := inv, ids;
      pending, delivered, canceled := pend, deliv, canc;
    }

    /**
     * `GET /api/products`: one entry per product, in the enumeration order of
     * the inventory object, with its id, name and price and the number of
     * keys left.
     */
    function Products(): (r: seq<ProductView>)
      reads this
      requires Valid()
      ensures |r| == |productIds|
      ensures forall i :: 0 <= i < |r| ==>
                var p := inventory[productIds[i]];
                r[i] == ProductView(p.id, p.name, p.price, Stock(p))
      ensures forall pid :: pid in inventory ==>
                exists i :: 0 <= i < |r| && r[i].stock == Stock(inventory[pid]) && productIds[i] == pid
    {
      var r := Listing(InOrder(inventory, productIds));
      assert forall pid :: pid in inventory ==> exists i :: 0 <= i < |productIds| && productIds[i] == pid;
      r
    }

    /**
     * `POST /api/buy`: validate the request and put a new pending order at the
     * front of `pending`.  An absent `productId`, `email` or `name` is `""`;
     * an absent `qty` is `None` and counts as 1.
     */
    method Buy(productId: string, qty: Option<int>, email: string, name: string,
               orderId: string, upload: Option<string>, now: string) returns (reply: Reply)
      requires Valid()
      modifies this
      ensures Valid()
      ensures productId == "" || email == "" ==> reply == BadRequest("productId and email required")
      ensures productId != "" && email != "" && productId !in inventory ==> reply == BadRequest("Invalid productId")
      ensures productId != "" && email != "" && productId in inventory && qty.GetOr(1) <= 0 ==>
                reply == BadRequest("Qty must be >= 1")
      ensures reply.Ok? <==> productId != "" && email != "" && productId in inventory && qty.GetOr(1) > 0
      ensures inventory == old(inventory) && productIds == old(productIds)
      ensures delivered == old(delivered) && canceled == old(canceled)
      ensures !reply.Ok? ==> pending == old(pending)
      ensures reply.Ok? ==>
                var q := qty.GetOr(1);
                pending == [Order(orderId, productId, q, name, email, PriceOf(inventory[productId]) * q,
                                  ProofPath(upload), Pending, now, None, None, None)] + old(pending)
      ensures old(LedgerConsistent()) && orderId !in old(KnownIds()) ==> LedgerConsistent()
      ensures old(IssuedOnce()) ==> IssuedOnce()
    {
      if productId == "" || email == "" {
        return BadRequest("productId and email required");
      }
      if productId !in inventory {
        return BadRequest("Invalid productId");
      }
      var totalQty := qty.GetOr(1);
      if totalQty <= 0 {
        return BadRequest("Qty must be >= 1");
      }
      var order := Order(orderId, productId, totalQty, name, email, PriceOf(inventory[productId]) * totalQty,
                         ProofPath(upload), Pending, now, None, None, None);
      if LedgerConsistent() && orderId !in KnownIds() {
        UnshiftKeepsIdsUnique(order, pending, delivered, canceled.GetOr([]));
      }
      pending := [order] + pending;
      reply := Ok;
    }

    /**
     * The allocation step of `/api/admin/verify`: `n` times `keys.shift()` on
     * product `pid`, collecting the keys in the order they come off, and the
     * product written back into the inventory.
     */
    method Allocate(pid: string, n: nat) returns (issued: seq<string>)
      requires Valid() && pid in inventory && n <= Stock(inventory[pid])
      modifies this
      ensures Valid()
      ensures issued == old(KeysOf(inventory[pid]))[..n]
      ensures inventory == old(inventory)[pid := Withdraw(old(inventory[pid]), n)]
      ensures issued + KeysOf(inventory[pid]) == old(KeysOf(inventory[pid]))
      ensures productIds == old(productIds) && pending == old(pending)
      ensures delivered == old(delivered) && canceled == old(canceled)
      ensures old(KeysDistinct(inventory)) ==> KeysDistinct(inventory)
      ensures old(KeysDistinct(inventory)) ==>
                forall q, k :: q in inventory && k in issued ==> k !in KeysOf(inventory[q])
    {
      var product := inventory[pid];
      var keys := KeysOf(product);
      issued := [];
      var i := 0;
      while i < n
        invariant 0 <= i <= n
        invariant issued == KeysOf(product)[..i]
        invariant keys == KeysOf(product)[i..]
      {
        issued := issued + [keys[0]];
        keys := keys[1..];
        i := i + 1;
      }
      var updated := if i == 0 then product else product.(keys := Some(keys));
      assert updated == Withdraw(product, n);
      if KeysDistinct(inventory) {
        WithdrawIssuesOnce(inventory, pid, n);
      }
      inventory := inventory[pid := updated];
    }

    /**
     * The commit step of `/api/admin/verify` for the order at `pending[idx]`:
     * allocate its keys, splice it out of `pending` and file it under its id
     * in `delivered`, marked delivered, time-stamped and carrying its keys.
     */
    method Deliver(idx: nat, now: string) returns (issued: seq<string>)
      requires Valid() && idx < |pending| && pending[idx].productId in inventory
      requires Allocation(pending[idx].qty) <= Stock(inventory[pending[idx].productId])
      modifies this
      ensures Valid()
      ensures var order := old(pending[idx]);
              var product := old(inventory[order.productId]);
              var n := Allocation(order.qty);
              && issued == KeysOf(product)[..n]
              && inventory == old(inventory)[order.productId := Withdraw(product, n)]
              && issued + KeysOf(inventory[order.productId]) == KeysOf(product)
              && pending == RemoveAt(old(pending), idx)
              && delivered == old(delivered)[order.orderId := order.(assignedKeys := Some(Tag(issued, product.name)),
                                                                      status := Delivered, deliveredAt := Some(now))]
      ensures productIds == old(productIds) && canceled == old(canceled)
      ensures old(KeysDistinct(inventory)) ==> KeysDistinct(inventory)
      ensures old(KeysDistinct(inventory)) ==>
                forall q, k :: q in inventory && k in issued ==> k !in KeysOf(inventory[q])
      ensures old(LedgerConsistent()) ==> LedgerConsistent()
      ensures old(KeysDistinct(inventory) && IssuedOnce()) ==> IssuedOnce()
    {
      var order := pending[idx];
      var product := inventory[order.productId];
      var n := Allocation(order.qty);
      issued := Allocate(order.productId, n);
      var record := order.(assignedKeys := Some(Tag(issued, product.name)), status := Delivered, deliveredAt := Some(now));
      if old(KeysDistinct(inventory) && IssuedOnce()) {
        TagKeepsKeys(issued, product.name);
        DeliverIssuesOnce(old(inventory), delivered, order.productId, n, order.orderId, record);
      }
      if LedgerConsistent() {
        DeliverKeepsIdsUnique(pending, delivered, canceled.GetOr([]), idx, record);
      }
      pending := RemoveAt(pending, idx);
      delivered := delivered[order.orderId := record];
    }

    /** The checks `/api/admin/verify` makes before it allocates anything. */
    ghost predicate CanVerify(orderId: string)
      reads this
    {
      && orderId != ""
      && FindOrder(pending, orderId) != -1
      && pending[FindOrder(pending, orderId)].productId in inventory
      && pending[FindOrder(pending, orderId)].qty <= Stock(inventory[pending[FindOrder(pending, orderId)].productId])
    }

    /**
     * `POST /api/admin/verify`: take the order's first `qty` keys off the front
     * of its product's key list, move the order from `pending` into
     * `delivered[orderId]` with those keys attached, and return the keys.
     * On every error nothing changes and no key is returned.
     */
    method Verify(orderId: string, now: string) returns (reply: Reply, issued: seq<string>)
      requires Valid()
      modifies this
      ensures Valid()
      ensures orderId == "" ==> reply == BadRequest("orderId required")
      ensures orderId != "" && old(FindOrder(pending, orderId)) == -1 ==> reply == NotFound
      ensures orderId != "" && old(FindOrder(pending, orderId)) != -1 &&
              old(pending[FindOrder(pending, orderId)].productId !in inventory) ==>
                reply == BadRequest("Product not found")
      ensures orderId != "" && old(FindOrder(pending, orderId)) != -1 &&
              old(pending[FindOrder(pending, orderId)].productId in inventory) &&
              old(Stock(inventory[pending[FindOrder(pending, orderId)].productId]) <
                  pending[FindOrder(pending, orderId)].qty) ==>
                reply == NotEnoughStock
      ensures reply.Ok? <==> old(CanVerify(orderId))
      ensures !reply.Ok? ==> issued == [] && unchanged(this)
      ensures reply.Ok? ==>
                var idx := old(FindOrder(pending, orderId));
                var order := old(pending[idx]);
                var product := old(inventory[order.productId]);
                var n := Allocation(order.qty);
                && n <= Stock(product)
                && issued == KeysOf(product)[..n]
                && inventory == old(inventory)[order.productId := Withdraw(product, n)]
                && issued + KeysOf(inventory[order.productId]) == KeysOf(product)
                && pending == RemoveAt(old(pending), idx)
                && delivered == old(delivered)[orderId := order.(assignedKeys := Some(Tag(issued, product.name)),
                                                                 status := Delivered, deliveredAt := Some(now))]
      ensures productIds == old(productIds) && canceled == old(canceled)
      ensures old(KeysDistinct(inventory)) ==> KeysDistinct(inventory)
      ensures old(KeysDistinct(inventory)) ==>
                forall q, k :: q in inventory && k in issued ==> k !in KeysOf(inventory[q])
      ensures old(LedgerConsistent()) ==> LedgerConsistent()
      ensures old(KeysDistinct(inventory) && IssuedOnce()) ==> IssuedOnce()
    {
      if orderId == "" {
        return BadRequest("orderId required"), [];
      }
      var idx := FindOrder(pending, orderId);
      if idx == -1 {
        return NotFound, [];
      }
      var order := pending[idx];
      if order.productId !in inventory {
        return BadRequest("Product not found"), [];
      }
      var product := inventory[order.productId];
      if |KeysOf(product)| < order.qty {
        return NotEnoughStock, [];
      }
      issued := Deliver(idx, now);
      reply := Ok;
    }

    /**
     * `POST /api/admin/cancel`: move the order from `pending` to the end of
     * `canceled` (created if absent), marked canceled and time-stamped.  The
     * inventory is never touched.
     */
    method Cancel(orderId: string, now: string) returns (reply: Reply)
      requires Valid()
      modifies this
      ensures Valid()
      ensures orderId == "" ==> reply == BadRequest("orderId required")
      ensures orderId != "" && old(FindOrder(pending, orderId)) == -1 ==> reply == NotFound
      ensures reply.Ok? <==> orderId != "" && old(FindOrder(pending, orderId)) != -1
      ensures inventory == old(inventory) && productIds == old(productIds) && delivered == old(delivered)
      ensures !reply.Ok? ==> unchanged(this)
      ensures reply.Ok? ==>
                var idx := old(FindOrder(pending, orderId));
                && pending == RemoveAt(old(pending), idx)
                && canceled == Some(old(canceled).GetOr([]) +
                                    [old(pending[idx]).(status := Canceled, canceledAt := Some(now))])
      ensures old(LedgerConsistent()) ==> LedgerConsistent()
      ensures old(IssuedOnce()) ==> IssuedOnce()
    {
      if orderId == "" {
        return BadRequest("orderId required");
      }
      var idx := FindOrder(pending, orderId);
      if idx == -1 {
        return NotFound;
      }
      var order := pending[idx];
      var record := order.(status := Canceled, canceledAt := Some(now));
      if LedgerConsistent() {
        CancelKeepsIdsUnique(pending, delivered, canceled.GetOr([]), idx, record);
      }
      pending := RemoveAt(pending, idx);
      canceled := Some(canceled.GetOr([]) + [record]);
      reply := Ok;
    }
  }
}
